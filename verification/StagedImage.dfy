/** The meaning of a staged write: what the host sees, what a commit will make of it, and
    why no interruption of a commit can lose either the old contents or the new. */
module StagedImage {
  import opened Wrappers
  import opened NorImage
  import opened NorDevice
  import opened Eeprom

  const BLOCK_BYTES: int := 8
  const MAX_SECTORS: int := 2
  const BLOCKS: int := MAX_SECTORS * SECTOR_BYTES / BLOCK_BYTES

  // ---------------------------------------------------------------- Bitmap

  type Bitmap = s: seq<byte> | |s| == BLOCKS / 8 witness seq(128, _ => 0)

  function EmptyBitmap(): (r: Bitmap)
    ensures forall i :: 0 <= i < |r| ==> r[i] == 0
  {
    seq(BLOCKS / 8, _ => 0)
  }

  /** One shifted left by `k`, written out. */
  function Bit(k: nat): byte
    requires k < 8
  {
    [1, 2, 4, 8, 16, 32, 64, 128][k]
  }

  predicate IsSet(written: Bitmap, block: nat)
    requires block < BLOCKS
  {
    written[block / 8] & Bit(block % 8) != 0
  }

  function WithSet(written: Bitmap, block: nat): (r: Bitmap)
    requires block < BLOCKS
  {
    written[block / 8 := written[block / 8] | Bit(block % 8)]
  }

  lemma BitsAreIndependent(word: byte, a: nat, b: nat)
    requires a < 8 && b < 8
    ensures (word | Bit(a)) & Bit(b) != 0 <==> a == b || word & Bit(b) != 0
  {
    assert Bit(0) == 1 && Bit(1) == 2 && Bit(2) == 4 && Bit(3) == 8;
    assert Bit(4) == 16 && Bit(5) == 32 && Bit(6) == 64 && Bit(7) == 128;
  }

  /** Marking a block marks that block and no other. */
  lemma WithSetMarksOne(written: Bitmap, block: nat, other: nat)
    requires block < BLOCKS && other < BLOCKS
    ensures IsSet(WithSet(written, block), other) <==> other == block || IsSet(written, other)
  {
    hide Bit;
    var marked := WithSet(written, block);
    if block / 8 == other / 8 {
      assert marked[other / 8] == written[other / 8] | Bit(block % 8);
      BitsAreIndependent(written[block / 8], block % 8, other % 8);
      assert block % 8 == other % 8 <==> block == other;
    } else {
      assert marked[other / 8] == written[other / 8];
    }
  }

  lemma EmptyBitmapIsUnset(block: nat)
    requires block < BLOCKS
    ensures !IsSet(EmptyBitmap(), block)
  {}

  // ---------------------------------------------------------------- Regions

  /** A live region and the spare region its next contents are gathered in. */
  datatype Layout = Layout(live: Region, staging: Region) {
    /** Same size, small enough for the bitmap, and no byte in common. */
    predicate WellPlaced() {
      && live.len == staging.len
      && Sectors(live) <= MAX_SECTORS
      && (live.origin + live.len <= staging.origin || staging.origin + staging.len <= live.origin)
    }
  }

  type Placed = l: Layout | l.WellPlaced()
    witness Layout(RegionFields(VENDOR_RESERVED_BYTES, SECTOR_BYTES),
                   RegionFields(VENDOR_RESERVED_BYTES + SECTOR_BYTES, SECTOR_BYTES))

  predicate IsImage(m: Image) { |m| == ADDRESS_SPACE }

  /** Byte `i` of the live region. */
  function L(l: Placed, m: Image, i: nat): byte
    requires IsImage(m) && i < l.live.len
  {
    m[l.live.origin + i]
  }

  /** Byte `i` of the staging region. */
  function S(l: Placed, m: Image, i: nat): byte
    requires IsImage(m) && i < l.live.len
  {
    m[l.staging.origin + i]
  }

  function Live(l: Placed, m: Image): (r: seq<byte>)
    requires IsImage(m)
    ensures |r| == l.live.len && forall i :: 0 <= i < |r| ==> r[i] == L(l, m, i)
  {
    m[l.live.origin..l.live.origin + l.live.len]
  }

  function Staging(l: Placed, m: Image): (r: seq<byte>)
    requires IsImage(m)
    ensures |r| == l.live.len && forall i :: 0 <= i < |r| ==> r[i] == S(l, m, i)
  {
    m[l.staging.origin..l.staging.origin + l.staging.len]
  }

  /** Whether the host has written the block byte `i` is in. No bitmap is no open write. */
  predicate Written(l: Placed, w: Option<Bitmap>, i: nat)
    requires i < l.live.len
  {
    w.Some? && IsSet(w.value, i / BLOCK_BYTES)
  }

  /** What the host reads back: its own blocks over the live ones. */
  function Overlay(l: Placed, w: Option<Bitmap>, m: Image): (r: seq<byte>)
    requires IsImage(m)
    ensures |r| == l.live.len
  {
    seq(l.live.len, i requires 0 <= i < l.live.len =>
      if Written(l, w, i) then S(l, m, i) else L(l, m, i))
  }

  /** Byte `i` of what committing will make of the live region. Filling a block the host
      did not write programs the live bytes over whatever staging holds, and that can only
      clear bits. */
  function M(l: Placed, w: Option<Bitmap>, m: Image, i: nat): byte
    requires IsImage(m) && i < l.live.len
  {
    if Written(l, w, i) then S(l, m, i) else S(l, m, i) & L(l, m, i)
  }

  function Merged(l: Placed, w: Option<Bitmap>, m: Image): (r: seq<byte>)
    requires IsImage(m)
    ensures |r| == l.live.len && forall i :: 0 <= i < |r| ==> r[i] == M(l, w, m, i)
  {
    seq(l.live.len, i requires 0 <= i < l.live.len => M(l, w, m, i))
  }

  /** Committing gives the host what it read back exactly when no block it left alone has
      lost a bit in staging. */
  lemma CommitKeepsOverlayExactlyWhen(l: Placed, w: Option<Bitmap>, m: Image)
    requires IsImage(m)
    ensures Merged(l, w, m) == Overlay(l, w, m)
       <==> forall i: nat :: i < l.live.len && !Written(l, w, i) ==> Covers(S(l, m, i), L(l, m, i))
  {
    if Merged(l, w, m) == Overlay(l, w, m) {
      forall i: nat | i < l.live.len && !Written(l, w, i) ensures Covers(S(l, m, i), L(l, m, i)) {
        assert Merged(l, w, m)[i] == Overlay(l, w, m)[i];
      }
    }
  }

  /** Every block the host has not written is still erased in staging. */
  predicate Clean(l: Placed, w: Option<Bitmap>, m: Image)
    requires IsImage(m)
  {
    w.Some? ==> forall i: nat :: i < l.live.len && !Written(l, w, i) ==> S(l, m, i) == ERASED_BYTE
  }

  // ---------------------------------------------------------------- Commit

  /** `m` agrees with `from` outside both regions. */
  predicate Elsewhere(l: Placed, from: Image, m: Image)
    requires IsImage(from) && IsImage(m)
  {
    forall k | 0 <= k < ADDRESS_SPACE
               && !(l.live.origin <= k < l.live.origin + l.live.len)
               && !(l.staging.origin <= k < l.staging.origin + l.staging.len)
      :: m[k] == from[k]
  }

  predicate StagingLoses(l: Placed, from: Image, m: Image)
    requires IsImage(from) && IsImage(m)
  {
    forall i: nat :: i < l.live.len ==> Covers(S(l, from, i), S(l, m, i))
  }

  lemma StagingLosesJoins(l: Placed, a: Image, b: Image, c: Image)
    requires IsImage(a) && IsImage(b) && IsImage(c) && StagingLoses(l, a, b) && StagingLoses(l, b, c)
    ensures StagingLoses(l, a, c)
  {
    forall i: nat | i < l.live.len ensures Covers(S(l, a, i), S(l, c, i)) {
      assert Covers(S(l, a, i), S(l, b, i)) && Covers(S(l, b, i), S(l, c, i));
      BareLoses(S(l, a, i), S(l, b, i), S(l, c, i));
    }
  }

  lemma BareLoses(a: byte, b: byte, c: byte)
    requires a & b == b && b & c == c
    ensures a & c == c
  {}

  lemma BareLosesNothing(a: byte)
    ensures a & a == a
  {}

  lemma StagingKept(l: Placed, from: Image, m: Image)
    requires IsImage(from) && IsImage(m) && forall i: nat :: i < l.live.len ==> S(l, m, i) == S(l, from, i)
    ensures StagingLoses(l, from, m)
  {
    forall i: nat | i < l.live.len ensures Covers(S(l, from, i), S(l, m, i)) { BareLosesNothing(S(l, m, i)); }
  }

  /** The crash-safety of an image `m` a commit begun at `from` passes through: what a
      commit would make of it is unchanged, and either the old contents are all still live
      or the new contents are all in staging. Once they are in staging they stay, and staging
      never gains a bit. */
  predicate CommitSafe(l: Placed, w: Option<Bitmap>, from: Image, m: Image)
    requires IsImage(from)
  {
    && IsImage(m)
    && Elsewhere(l, from, m)
    && Merged(l, w, m) == Merged(l, w, from)
    && (Live(l, m) == Live(l, from) || Staging(l, m) == Merged(l, w, from))
    && (Staging(l, from) == Merged(l, w, from) ==> Staging(l, m) == Merged(l, w, from))
    && StagingLoses(l, from, m)
  }

  /** Part of a commit: from `from` with trace `before` to `now` with trace `after`, by way of
      safe images only. */
  ghost predicate Progress(l: Placed, w: Option<Bitmap>, from: Image, before: seq<Image>,
                           now: Image, after: seq<Image>)
    requires IsImage(from)
  {
    && CommitSafe(l, w, from, now)
    && |before| <= |after| && after[..|before|] == before
    && forall k :: |before| <= k < |after| ==> CommitSafe(l, w, from, after[k])
  }

  /** One attempt at a commit. If it passes, the live region is what the merge promised. */
  ghost predicate CommitEffect(l: Placed, w: Option<Bitmap>, from: Image, before: seq<Image>,
                               now: Image, after: seq<Image>, passed: bool)
    requires IsImage(from)
  {
    && Progress(l, w, from, before, now, after)
    && (passed ==> Live(l, now) == Merged(l, w, from))
  }

  lemma CommitSafeIsReflexive(l: Placed, w: Option<Bitmap>, m: Image)
    requires IsImage(m)
    ensures CommitSafe(l, w, m, m)
  {
    StagingKept(l, m, m);
  }

  lemma CommitSafeIsTransitive(l: Placed, w: Option<Bitmap>, a: Image, b: Image, c: Image)
    requires IsImage(a) && CommitSafe(l, w, a, b) && CommitSafe(l, w, b, c)
    ensures CommitSafe(l, w, a, c)
  {
    StagingLosesJoins(l, a, b, c);
    hide StagingLoses;
  }

  /** A step that leaves the live bytes alone, changes no byte's merge, and moves no byte
      of staging that is merged already, is safe. */
  lemma StagingStepIsSafe(l: Placed, w: Option<Bitmap>, mid: Image, x: Image)
    requires IsImage(mid) && IsImage(x) && Elsewhere(l, mid, x)
    requires forall i: nat :: i < l.live.len ==> L(l, x, i) == L(l, mid, i)
    requires forall i: nat :: i < l.live.len ==> M(l, w, x, i) == M(l, w, mid, i)
    requires forall i: nat :: i < l.live.len && S(l, mid, i) == M(l, w, mid, i) ==> S(l, x, i) == S(l, mid, i)
    requires StagingLoses(l, mid, x)
    ensures CommitSafe(l, w, mid, x)
    ensures Live(l, x) == Live(l, mid)
  {
    hide StagingLoses;
  }

  /** A step that leaves staging alone when all of it is merged already, and clears no bit
      of a live byte that staging still holds there, is safe. */
  lemma LiveStepIsSafe(l: Placed, w: Option<Bitmap>, mid: Image, x: Image)
    requires IsImage(mid) && IsImage(x) && Elsewhere(l, mid, x)
    requires Staging(l, mid) == Merged(l, w, mid)
    requires forall i: nat :: i < l.live.len ==> S(l, x, i) == S(l, mid, i)
    requires forall i: nat :: i < l.live.len && Covers(L(l, mid, i), S(l, mid, i)) ==> Covers(L(l, x, i), S(l, mid, i))
    ensures CommitSafe(l, w, mid, x)
    ensures Staging(l, x) == Staging(l, mid)
  {
    forall i: nat | i < l.live.len ensures M(l, w, x, i) == M(l, w, mid, i) {
      assert Staging(l, mid)[i] == Merged(l, w, mid)[i];
    }
    assert Merged(l, w, x) == Merged(l, w, mid);
    assert Staging(l, x) == Staging(l, mid);
    StagingKept(l, mid, x);
    hide StagingLoses;
  }

  /** `to` is `mid` with the live bytes of the block at `at` programmed over staging. */
  predicate IsFill(l: Placed, mid: Image, at: nat, to: Image)
    requires IsImage(mid) && IsImage(to) && at + BLOCK_BYTES <= l.live.len
  {
    && SameOutside(to, mid, l.staging.origin + at, l.staging.origin + at + BLOCK_BYTES)
    && forall i: nat :: at <= i < at + BLOCK_BYTES ==> S(l, to, i) == S(l, mid, i) & L(l, mid, i)
  }

  lemma FillTarget(l: Placed, mid: Image, at: nat, to: Image)
    requires IsImage(mid) && at + BLOCK_BYTES <= l.live.len
    requires to == AndAt(mid, l.staging.origin + at, Live(l, mid)[at..at + BLOCK_BYTES])
    ensures IsFill(l, mid, at, to)
  {
    hide AndAt, Live, L;
    var bytes := Live(l, mid)[at..at + BLOCK_BYTES];
    AndAtBytes(mid, l.staging.origin + at, bytes);
    forall i: nat | at <= i < at + BLOCK_BYTES ensures S(l, to, i) == S(l, mid, i) & L(l, mid, i) {
      assert bytes[i - at] == L(l, mid, i);
      assert to[l.staging.origin + at + (i - at)] == S(l, mid, i) & bytes[i - at];
    }
  }

  lemma FillLeavesOthers(l: Placed, mid: Image, at: nat, to: Image, x: Image)
    requires IsImage(mid) && IsImage(to) && at + BLOCK_BYTES <= l.live.len && IsFill(l, mid, at, to)
    requires Torn(x, mid, to)
    ensures Elsewhere(l, mid, x)
    ensures forall i: nat :: i < l.live.len ==> L(l, x, i) == L(l, mid, i)
    ensures forall i: nat :: i < l.live.len && !(at <= i < at + BLOCK_BYTES) ==> S(l, x, i) == S(l, mid, i)
  {
    TornStaysInside(x, mid, to, l.staging.origin + at, l.staging.origin + at + BLOCK_BYTES);
  }

  lemma FillTears(l: Placed, mid: Image, at: nat, to: Image, x: Image, i: nat)
    requires IsImage(mid) && IsImage(to) && at + BLOCK_BYTES <= l.live.len && IsFill(l, mid, at, to)
    requires Torn(x, mid, to) && at <= i < at + BLOCK_BYTES
    ensures Between(S(l, x, i), S(l, mid, i), S(l, mid, i) & L(l, mid, i))
  {}

  lemma UnwrittenMerge(l: Placed, w: Option<Bitmap>, m: Image, i: nat)
    requires IsImage(m) && i < l.live.len && !Written(l, w, i)
    ensures M(l, w, m, i) == S(l, m, i) & L(l, m, i)
  {}

  lemma FillMerges(l: Placed, w: Option<Bitmap>, mid: Image, x: Image, i: nat)
    requires IsImage(mid) && IsImage(x) && i < l.live.len && !Written(l, w, i)
    requires Between(S(l, x, i), S(l, mid, i), S(l, mid, i) & L(l, mid, i))
    requires L(l, x, i) == L(l, mid, i)
    ensures M(l, w, x, i) == M(l, w, mid, i)
    ensures S(l, mid, i) == M(l, w, mid, i) ==> S(l, x, i) == S(l, mid, i)
  {}

  lemma UntouchedMerge(l: Placed, w: Option<Bitmap>, mid: Image, x: Image, i: nat)
    requires IsImage(mid) && IsImage(x) && i < l.live.len
    requires S(l, x, i) == S(l, mid, i) && L(l, x, i) == L(l, mid, i)
    ensures M(l, w, x, i) == M(l, w, mid, i)
  {}

  lemma TornLoses(x: byte, base: byte, data: byte)
    requires Between(x, base, base & data)
    ensures Covers(base, x)
  {}

  lemma LosesNothing(a: byte)
    ensures Covers(a, a)
  {}

  /** Filling: a program of an unwritten block's live bytes into staging, completed or
      interrupted, is safe. */
  lemma FillStepIsSafe(l: Placed, w: Option<Bitmap>, mid: Image, at: nat, to: Image, x: Image)
    requires IsImage(mid) && IsImage(to) && at + BLOCK_BYTES <= l.live.len && IsFill(l, mid, at, to)
    requires forall i: nat :: at <= i < at + BLOCK_BYTES ==> !Written(l, w, i)
    requires Torn(x, mid, to)
    ensures CommitSafe(l, w, mid, x)
    ensures Live(l, x) == Live(l, mid)
  {
    assert IsImage(x);
    hide M, S, L, Torn, IsFill, Covers, CommitSafe, Written, Elsewhere;
    FillLeavesOthers(l, mid, at, to, x);
    forall i: nat | i < l.live.len
      ensures M(l, w, x, i) == M(l, w, mid, i)
      ensures S(l, mid, i) == M(l, w, mid, i) ==> S(l, x, i) == S(l, mid, i)
      ensures Covers(S(l, mid, i), S(l, x, i))
    {
      if at <= i < at + BLOCK_BYTES {
        FillTears(l, mid, at, to, x, i);
        FillMerges(l, w, mid, x, i);
        TornLoses(S(l, x, i), S(l, mid, i), L(l, mid, i));
      } else {
        UntouchedMerge(l, w, mid, x, i);
        LosesNothing(S(l, mid, i));
      }
    }
    assert StagingLoses(l, mid, x);
    StagingStepIsSafe(l, w, mid, x);
  }

  /** Erasing the live region once staging is merged, completed or interrupted, is safe. */
  lemma EraseStepIsSafe(l: Placed, w: Option<Bitmap>, mid: Image, to: Image, x: Image)
    requires IsImage(mid) && Staging(l, mid) == Merged(l, w, mid)
    requires to == Erased(mid, l.live.origin, l.live.origin + l.live.len)
    requires Torn(x, mid, to)
    ensures CommitSafe(l, w, mid, x)
    ensures Staging(l, x) == Staging(l, mid)
  {
    TornStaysInside(x, mid, to, l.live.origin, l.live.origin + l.live.len);
    forall i: nat | i < l.live.len && Covers(L(l, mid, i), S(l, mid, i))
      ensures Covers(L(l, x, i), S(l, mid, i))
    {
      var k := l.live.origin + i;
      assert Between(x[k], mid[k], to[k]);
    }
    LiveStepIsSafe(l, w, mid, x);
  }

  /** `to` is `mid` with `n` staging bytes at `at` programmed over the live ones. */
  predicate IsCopy(l: Placed, mid: Image, at: nat, n: nat, to: Image)
    requires IsImage(mid) && IsImage(to) && at + n <= l.live.len
  {
    && SameOutside(to, mid, l.live.origin + at, l.live.origin + at + n)
    && forall i: nat :: at <= i < at + n ==> L(l, to, i) == L(l, mid, i) & S(l, mid, i)
  }

  lemma CopyTarget(l: Placed, mid: Image, at: nat, n: nat, to: Image)
    requires IsImage(mid) && at + n <= l.live.len
    requires to == AndAt(mid, l.live.origin + at, Staging(l, mid)[at..at + n])
    ensures IsCopy(l, mid, at, n, to)
  {
    hide AndAt, Staging, S;
    var bytes := Staging(l, mid)[at..at + n];
    AndAtBytes(mid, l.live.origin + at, bytes);
    forall i: nat | at <= i < at + n ensures L(l, to, i) == L(l, mid, i) & S(l, mid, i) {
      assert bytes[i - at] == S(l, mid, i);
      assert to[l.live.origin + at + (i - at)] == L(l, mid, i) & bytes[i - at];
    }
  }

  lemma CopyLeavesOthers(l: Placed, mid: Image, at: nat, n: nat, to: Image, x: Image)
    requires IsImage(mid) && IsImage(to) && at + n <= l.live.len && IsCopy(l, mid, at, n, to)
    requires Torn(x, mid, to)
    ensures Elsewhere(l, mid, x)
    ensures forall i: nat :: i < l.live.len ==> S(l, x, i) == S(l, mid, i)
    ensures forall i: nat :: i < l.live.len && !(at <= i < at + n) ==> L(l, x, i) == L(l, mid, i)
  {
    TornStaysInside(x, mid, to, l.live.origin + at, l.live.origin + at + n);
  }

  lemma CopyTears(l: Placed, mid: Image, at: nat, n: nat, to: Image, x: Image, i: nat)
    requires IsImage(mid) && IsImage(to) && at + n <= l.live.len && IsCopy(l, mid, at, n, to)
    requires Torn(x, mid, to) && at <= i < at + n
    ensures Covers(L(l, mid, i), S(l, mid, i)) ==> Covers(L(l, x, i), S(l, mid, i))
  {}

  /** Copying staging bytes back to the live region, completed or interrupted, is safe. */
  lemma CopyStepIsSafe(l: Placed, w: Option<Bitmap>, mid: Image, at: nat, n: nat, to: Image, x: Image)
    requires IsImage(mid) && IsImage(to) && Staging(l, mid) == Merged(l, w, mid)
    requires at + n <= l.live.len && IsCopy(l, mid, at, n, to)
    requires Torn(x, mid, to)
    ensures CommitSafe(l, w, mid, x)
    ensures Staging(l, x) == Staging(l, mid)
  {
    assert IsImage(x);
    hide CommitSafe, Merged, M, IsCopy, Torn, L, S;
    CopyLeavesOthers(l, mid, at, n, to, x);
    forall i: nat | i < l.live.len && Covers(L(l, mid, i), S(l, mid, i))
      ensures Covers(L(l, x, i), S(l, mid, i))
    {
      if at <= i < at + n {
        CopyTears(l, mid, at, n, to, x, i);
      }
    }
    LiveStepIsSafe(l, w, mid, x);
  }

  /** Progress followed by a change every image of which is safe is progress. */
  lemma ProgressJoins(l: Placed, w: Option<Bitmap>, from: Image, before: seq<Image>,
                      mid: Image, traced: seq<Image>, now: Image, after: seq<Image>)
    requires IsImage(from) && Progress(l, w, from, before, mid, traced)
    requires Progress(l, w, mid, traced, now, after)
    ensures Progress(l, w, from, before, now, after)
  {
    CommitSafeIsTransitive(l, w, from, mid, now);
    assert after[..|before|] == after[..|traced|][..|before|];
    forall k | |before| <= k < |after| ensures CommitSafe(l, w, from, after[k]) {
      if k < |traced| {
        assert after[k] == after[..|traced|][k] == traced[k];
      } else {
        CommitSafeIsTransitive(l, w, from, mid, after[k]);
      }
    }
  }

  lemma TornNowhere(x: Image, m: Image)
    requires Torn(x, m, m)
    ensures x == m
  {
    TornStaysInside(x, m, m, 0, 0);
  }

  /** A transfer that changes nothing is progress. */
  lemma QuietProgress(l: Placed, w: Option<Bitmap>, mid: Image, traced: seq<Image>, after: seq<Image>)
    requires IsImage(mid) && TracedWithin(traced, after, mid, mid)
    ensures Progress(l, w, mid, traced, mid, after)
  {
    forall k | |traced| <= k < |after| ensures after[k] == mid {
      TornNowhere(after[k], mid);
    }
  }

  lemma FillProgress(l: Placed, w: Option<Bitmap>, mid: Image, traced: seq<Image>, at: nat,
                     now: Image, after: seq<Image>, passed: bool)
    requires IsImage(mid) && at + BLOCK_BYTES <= l.live.len
    requires forall i: nat :: at <= i < at + BLOCK_BYTES ==> !Written(l, w, i)
    requires Change(mid, AndAt(mid, l.staging.origin + at, Live(l, mid)[at..at + BLOCK_BYTES]),
                    traced, now, after, passed)
    ensures IsImage(now) && Progress(l, w, mid, traced, now, after)
    ensures Live(l, now) == Live(l, mid)
    ensures forall i: nat :: i < l.live.len && !(at <= i < at + BLOCK_BYTES) ==> S(l, now, i) == S(l, mid, i)
    ensures passed ==> forall i: nat :: at <= i < at + BLOCK_BYTES ==> S(l, now, i) == S(l, mid, i) & L(l, mid, i)
  {
    var to := AndAt(mid, l.staging.origin + at, Live(l, mid)[at..at + BLOCK_BYTES]);
    FillTarget(l, mid, at, to);
    FillStepIsSafe(l, w, mid, at, to, now);
    FillLeavesOthers(l, mid, at, to, now);
    forall k | |traced| <= k < |after| ensures CommitSafe(l, w, mid, after[k]) {
      FillStepIsSafe(l, w, mid, at, to, after[k]);
    }
  }

  lemma EraseProgress(l: Placed, w: Option<Bitmap>, mid: Image, traced: seq<Image>,
                      now: Image, after: seq<Image>, passed: bool)
    requires IsImage(mid) && Staging(l, mid) == Merged(l, w, mid)
    requires Change(mid, Erased(mid, l.live.origin, l.live.origin + l.live.len), traced, now, after, passed)
    ensures Progress(l, w, mid, traced, now, after)
    ensures Staging(l, now) == Staging(l, mid)
  {
    var to := Erased(mid, l.live.origin, l.live.origin + l.live.len);
    EraseStepIsSafe(l, w, mid, to, now);
    forall k | |traced| <= k < |after| ensures CommitSafe(l, w, mid, after[k]) {
      EraseStepIsSafe(l, w, mid, to, after[k]);
    }
  }

  lemma CopyProgress(l: Placed, w: Option<Bitmap>, mid: Image, traced: seq<Image>, at: nat, n: nat,
                     now: Image, after: seq<Image>, passed: bool)
    requires IsImage(mid) && Staging(l, mid) == Merged(l, w, mid) && at + n <= l.live.len
    requires Change(mid, AndAt(mid, l.live.origin + at, Staging(l, mid)[at..at + n]), traced, now, after, passed)
    ensures Progress(l, w, mid, traced, now, after)
    ensures Staging(l, now) == Staging(l, mid)
    ensures forall i: nat :: i < l.live.len && !(at <= i < at + n) ==> L(l, now, i) == L(l, mid, i)
    ensures passed ==> forall i: nat :: at <= i < at + n ==> L(l, now, i) == L(l, mid, i) & S(l, mid, i)
  {
    hide AndAt, CommitSafe, Merged, Torn, L, S, Live, Staging;
    var to := AndAt(mid, l.live.origin + at, Staging(l, mid)[at..at + n]);
    CopyTarget(l, mid, at, n, to);
    CopyStepIsSafe(l, w, mid, at, n, to, now);
    CopyLeavesOthers(l, mid, at, n, to, now);
    forall k | |traced| <= k < |after| ensures CommitSafe(l, w, mid, after[k]) {
      CopyStepIsSafe(l, w, mid, at, n, to, after[k]);
    }
  }
}
