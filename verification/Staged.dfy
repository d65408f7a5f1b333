/** The writer that gathers a host's blocks in a spare region and swaps them in. */
module Staged {
  import opened Wrappers
  import opened NorImage
  import opened NorDevice
  import opened Eeprom
  import opened StagedImage
  import opened StagedRun

  predicate AllErased(bytes: seq<byte>) {
    forall i :: 0 <= i < |bytes| ==> bytes[i] == ERASED_BYTE
  }

  /** Every byte below `end` holds its merge in staging. */
  predicate FilledTo(l: Placed, w: Option<Bitmap>, m: Image, end: nat)
    requires IsImage(m)
  {
    forall i: nat :: i < end && i < l.live.len ==> S(l, m, i) == M(l, w, m, i)
  }

  /** The live region is copied below `end` and erased from there on. */
  predicate CopiedTo(l: Placed, m: Image, end: nat)
    requires IsImage(m)
  {
    && (forall i: nat :: i < end && i < l.live.len ==> L(l, m, i) == S(l, m, i))
    && (forall i: nat :: end <= i < l.live.len ==> L(l, m, i) == ERASED_BYTE)
  }

  lemma FillExtends(l: Placed, w: Option<Bitmap>, mid: Image, now: Image, at: nat)
    requires IsImage(mid) && IsImage(now) && at + BLOCK_BYTES <= l.live.len
    requires FilledTo(l, w, mid, at)
    requires forall i: nat :: i < l.live.len ==> L(l, now, i) == L(l, mid, i)
    requires forall i: nat :: i < l.live.len && !(at <= i < at + BLOCK_BYTES) ==> S(l, now, i) == S(l, mid, i)
    requires forall i: nat :: at <= i < at + BLOCK_BYTES ==> S(l, now, i) == M(l, w, now, i)
    ensures FilledTo(l, w, now, at + BLOCK_BYTES)
  {}

  lemma FilledByte(l: Placed, w: Option<Bitmap>, mid: Image, now: Image, i: nat)
    requires IsImage(mid) && IsImage(now) && i < l.live.len && !Written(l, w, i)
    requires L(l, now, i) == L(l, mid, i) && S(l, now, i) == S(l, mid, i) & L(l, mid, i)
    ensures S(l, now, i) == M(l, w, now, i)
  {
    UnwrittenMerge(l, w, now, i);
  }

  lemma WrittenByte(l: Placed, w: Option<Bitmap>, m: Image, i: nat)
    requires IsImage(m) && i < l.live.len && Written(l, w, i)
    ensures S(l, m, i) == M(l, w, m, i)
  {}

  /** A block whose live bytes are all erased needs no fill: its merge is what staging holds. */
  lemma ErasedBlockIsMerged(l: Placed, w: Option<Bitmap>, m: Image, i: nat)
    requires IsImage(m) && i < l.live.len && L(l, m, i) == ERASED_BYTE
    ensures S(l, m, i) == M(l, w, m, i)
  {}

  lemma BlockOf(block: nat, i: nat)
    requires block * BLOCK_BYTES <= i < block * BLOCK_BYTES + BLOCK_BYTES
    ensures i / BLOCK_BYTES == block
  {}

  /** The three ways the filling loop passes a block. */
  lemma FillSkipsWritten(l: Placed, w: Option<Bitmap>, m: Image, index: nat)
    requires IsImage(m) && w.Some? && (index + 1) * BLOCK_BYTES <= l.live.len
    requires FilledTo(l, w, m, index * BLOCK_BYTES) && IsSet(w.value, index)
    ensures FilledTo(l, w, m, (index + 1) * BLOCK_BYTES)
  {
    forall i: nat | index * BLOCK_BYTES <= i < index * BLOCK_BYTES + BLOCK_BYTES
      ensures S(l, m, i) == M(l, w, m, i)
    {
      BlockOf(index, i);
      WrittenByte(l, w, m, i);
    }
    FillExtends(l, w, m, m, index * BLOCK_BYTES);
  }

  lemma FillSkipsErased(l: Placed, w: Option<Bitmap>, m: Image, index: nat)
    requires IsImage(m) && (index + 1) * BLOCK_BYTES <= l.live.len
    requires FilledTo(l, w, m, index * BLOCK_BYTES)
    requires AllErased(Live(l, m)[index * BLOCK_BYTES..index * BLOCK_BYTES + BLOCK_BYTES])
    ensures FilledTo(l, w, m, (index + 1) * BLOCK_BYTES)
  {
    var at := index * BLOCK_BYTES;
    var block := Live(l, m)[at..at + BLOCK_BYTES];
    forall i: nat | at <= i < at + BLOCK_BYTES ensures S(l, m, i) == M(l, w, m, i) {
      assert block[i - at] == L(l, m, i);
      ErasedBlockIsMerged(l, w, m, i);
    }
    FillExtends(l, w, m, m, at);
  }

  lemma FillPrograms(l: Placed, w: Option<Bitmap>, mid: Image, traced: seq<Image>, index: nat,
                     now: Image, after: seq<Image>, passed: bool)
    requires IsImage(mid) && w.Some? && (index + 1) * BLOCK_BYTES <= l.live.len
    requires FilledTo(l, w, mid, index * BLOCK_BYTES) && !IsSet(w.value, index)
    requires var at := index * BLOCK_BYTES;
             Change(mid, AndAt(mid, l.staging.origin + at, Live(l, mid)[at..at + BLOCK_BYTES]),
                    traced, now, after, passed)
    ensures Progress(l, w, mid, traced, now, after)
    ensures passed ==> FilledTo(l, w, now, (index + 1) * BLOCK_BYTES)
  {
    hide AndAt, CommitSafe, Progress, Change, Merged;
    var at := index * BLOCK_BYTES;
    forall i: nat | at <= i < at + BLOCK_BYTES ensures !Written(l, w, i) { BlockOf(index, i); }
    FillProgress(l, w, mid, traced, at, now, after, passed);
    LiveBytesAgree(l, mid, now);
    if passed {
      forall i: nat | at <= i < at + BLOCK_BYTES ensures S(l, now, i) == M(l, w, now, i) {
        FilledByte(l, w, mid, now, i);
      }
      FillExtends(l, w, mid, now, at);
    }
  }

  lemma LiveBytesAgree(l: Placed, a: Image, b: Image)
    requires IsImage(a) && IsImage(b) && Live(l, a) == Live(l, b)
    ensures forall i: nat :: i < l.live.len ==> L(l, a, i) == L(l, b, i)
  {}

  lemma SliceOfSlice(m: Image, origin: nat, len: nat, offset: nat, n: nat)
    requires origin + len <= |m| && offset + n <= len
    ensures m[origin + offset..origin + offset + n] == m[origin..origin + len][offset..offset + n]
  {
    var a, b := m[origin + offset..origin + offset + n], m[origin..origin + len][offset..offset + n];
    assert forall i :: 0 <= i < n ==> a[i] == b[i];
  }

  lemma SlicesJoin(s: seq<byte>, lo: nat, mid: nat, n: nat)
    requires lo <= mid && mid + n <= |s|
    ensures s[lo..mid] + s[mid..mid + n] == s[lo..mid + n]
  {}

  lemma QuietChange(m: Image, before: seq<Image>, now: Image, after: seq<Image>)
    requires Change(m, m, before, now, after, true)
    ensures now == m && TracedWithin(before, after, m, m)
  {}

  lemma ProgressIsReflexive(l: Placed, w: Option<Bitmap>, m: Image, trace: seq<Image>)
    requires IsImage(m)
    ensures Progress(l, w, m, trace, m, trace)
  {
    CommitSafeIsReflexive(l, w, m);
  }

  lemma MergedIsKept(l: Placed, w: Option<Bitmap>, from: Image, before: seq<Image>, now: Image, after: seq<Image>)
    requires IsImage(from) && Progress(l, w, from, before, now, after)
    ensures IsImage(now) && Merged(l, w, now) == Merged(l, w, from)
  {}

  lemma ErasedLive(l: Placed, from: Image, before: seq<Image>, now: Image, after: seq<Image>)
    requires IsImage(from)
    requires Change(from, Erased(from, l.live.origin, l.live.origin + l.live.len), before, now, after, true)
    ensures IsImage(now) && CopiedTo(l, now, 0)
  {}

  lemma CopiedAll(l: Placed, m: Image, end: nat)
    requires IsImage(m) && l.live.len <= end && CopiedTo(l, m, end)
    ensures Live(l, m) == Staging(l, m)
  {}

  lemma CopySkipsErased(l: Placed, m: Image, at: nat)
    requires IsImage(m) && at + PAGE_BYTES <= l.live.len && CopiedTo(l, m, at)
    requires AllErased(Staging(l, m)[at..at + PAGE_BYTES])
    ensures CopiedTo(l, m, at + PAGE_BYTES)
  {}

  lemma CopyPrograms(l: Placed, w: Option<Bitmap>, mid: Image, traced: seq<Image>, at: nat,
                     now: Image, after: seq<Image>, passed: bool)
    requires IsImage(mid) && Staging(l, mid) == Merged(l, w, mid) && at + PAGE_BYTES <= l.live.len
    requires CopiedTo(l, mid, at)
    requires Change(mid, AndAt(mid, l.live.origin + at, Staging(l, mid)[at..at + PAGE_BYTES]),
                    traced, now, after, passed)
    ensures IsImage(now) && Progress(l, w, mid, traced, now, after)
    ensures Staging(l, now) == Staging(l, mid) == Merged(l, w, now)
    ensures passed ==> CopiedTo(l, now, at + PAGE_BYTES)
  {
    hide AndAt, CommitSafe, Progress, Change, Merged;
    CopyProgress(l, w, mid, traced, at, PAGE_BYTES, now, after, passed);
    MergedIsKept(l, w, mid, traced, now, after);
    StagingBytesAgree(l, mid, now);
    if passed {
      forall i: nat | at <= i < at + PAGE_BYTES ensures L(l, now, i) == S(l, now, i) {
        assert L(l, mid, i) == ERASED_BYTE;
      }
    }
  }

  lemma StagingBytesAgree(l: Placed, a: Image, b: Image)
    requires IsImage(a) && IsImage(b) && Staging(l, a) == Staging(l, b)
    ensures forall i: nat :: i < l.live.len ==> S(l, a, i) == S(l, b, i)
  {}

  /** Every image past `before` still holds the live bytes of `m`. */
  ghost predicate KeepsLive(l: Placed, m: Image, before: seq<Image>, after: seq<Image>) {
    && IsImage(m)
    && |before| <= |after| && after[..|before|] == before
    && forall k :: |before| <= k < |after| ==> IsImage(after[k]) && Live(l, after[k]) == Live(l, m)
  }

  lemma KeepsLiveJoins(l: Placed, m: Image, a: seq<Image>, mid: Image, b: seq<Image>, c: seq<Image>)
    requires KeepsLive(l, m, a, b) && KeepsLive(l, mid, b, c) && Live(l, mid) == Live(l, m)
    ensures KeepsLive(l, m, a, c)
  {}

  lemma KeepsLiveQuietly(l: Placed, m: Image, before: seq<Image>, now: Image, after: seq<Image>)
    requires IsImage(m) && Change(m, m, before, now, after, true)
    ensures KeepsLive(l, m, before, after)
  {
    forall k | |before| <= k < |after| ensures after[k] == m { TornNowhere(after[k], m); }
  }

  lemma ChangeKeepsLive(l: Placed, from: Image, to: Image, before: seq<Image>, now: Image, after: seq<Image>,
                        passed: bool)
    requires IsImage(from) && Change(from, to, before, now, after, passed)
    requires SameOutside(to, from, l.staging.origin, l.staging.origin + l.staging.len)
    ensures IsImage(now) && Elsewhere(l, from, now) && Live(l, now) == Live(l, from)
    ensures KeepsLive(l, from, before, after)
  {}

  lemma OpeningErase(l: Placed, m: Image, before: seq<Image>, now: Image, after: seq<Image>, passed: bool)
    requires IsImage(m)
    requires Change(m, Erased(m, l.staging.origin, l.staging.origin + l.staging.len), before, now, after, passed)
    ensures IsImage(now) && Elsewhere(l, m, now) && Live(l, now) == Live(l, m)
    ensures KeepsLive(l, m, before, after)
    ensures passed ==> forall i: nat :: i < l.live.len ==> S(l, now, i) == ERASED_BYTE
  {
    var to := Erased(m, l.staging.origin, l.staging.origin + l.staging.len);
    ChangeKeepsLive(l, m, to, before, now, after, passed);
  }

  /** Staging before the block is programmed: what the session started from, or erased. */
  predicate AtBase(l: Placed, s: Session, mid: Image) {
    && IsImage(s.m) && IsImage(mid)
    && Elsewhere(l, s.m, mid) && Live(l, mid) == Live(l, s.m)
    && forall i: nat :: i < l.live.len ==> S(l, mid, i) == Base(l, s, i)
  }

  lemma StartsAtBase(l: Placed, s: Session, mid: Image)
    requires IsImage(s.m) && IsImage(mid) && Elsewhere(l, s.m, mid) && Live(l, mid) == Live(l, s.m)
    requires s.w.Some? ==> mid == s.m
    requires s.w.None? ==> forall i: nat :: i < l.live.len ==> S(l, mid, i) == ERASED_BYTE
    ensures AtBase(l, s, mid)
  {}

  /** `to` is `mid` with the block's bytes programmed over staging. */
  predicate IsProgram(l: Placed, mid: Image, offset: u32, data: HostBlock, to: Image)
    requires IsImage(mid) && IsImage(to) && offset + BLOCK_BYTES <= l.live.len
  {
    && SameOutside(to, mid, l.staging.origin + offset, l.staging.origin + offset + BLOCK_BYTES)
    && forall i: nat :: i < l.live.len && InBlock(offset, i) ==> S(l, to, i) == S(l, mid, i) & data[i - offset]
  }

  lemma ProgramTarget(l: Placed, mid: Image, offset: u32, data: HostBlock)
    requires IsImage(mid) && offset + BLOCK_BYTES <= l.live.len
    ensures IsProgram(l, mid, offset, data, AndAt(mid, l.staging.origin + offset, data))
  {}

  lemma ProgramByte(l: Placed, mid: Image, offset: u32, data: HostBlock, to: Image, now: Image, i: nat)
    requires IsImage(mid) && IsImage(to) && offset + BLOCK_BYTES <= l.live.len && i < l.live.len
    requires IsProgram(l, mid, offset, data, to) && Torn(now, mid, to)
    ensures !InBlock(offset, i) ==> S(l, now, i) == S(l, mid, i)
    ensures InBlock(offset, i) ==> Between(S(l, now, i), S(l, mid, i), S(l, mid, i) & data[i - offset])
  {}

  /** Programming the block, completed or interrupted. */
  lemma ProgramBlock(l: Placed, s: Session, mid: Image, offset: u32, data: HostBlock, traced: seq<Image>,
                     now: Image, after: seq<Image>, passed: bool)
    requires AtBase(l, s, mid) && IsBlock(l, offset) && offset + BLOCK_BYTES <= l.live.len
    requires Change(mid, AndAt(mid, l.staging.origin + offset, data), traced, now, after, passed)
    requires Permitted(l, s, offset, data)
    ensures KeepsLive(l, mid, traced, after)
    ensures WriteFailed(l, s, offset, data, Session(Some(Marks(s.w)), now))
    ensures offset / BLOCK_BYTES < BLOCKS
    ensures passed ==>
              WriteAccepted(l, s, offset, data, Session(Some(WithSet(Marks(s.w), offset / BLOCK_BYTES)), now))
  {
    hide AndAt, Between;
    var to := AndAt(mid, l.staging.origin + offset, data);
    ProgramTarget(l, mid, offset, data);
    ChangeKeepsLive(l, mid, to, traced, now, after, passed);
    BlockFits(l, offset);
    forall i: nat | i < l.live.len
      ensures !InBlock(offset, i) ==> S(l, now, i) == Base(l, s, i)
      ensures InBlock(offset, i) ==> Between(S(l, now, i), Base(l, s, i), Base(l, s, i) & data[i - offset])
      ensures InBlock(offset, i) && passed ==> S(l, now, i) == Base(l, s, i) & data[i - offset]
    {
      ProgramByte(l, mid, offset, data, to, now, i);
    }
  }

  /** A re-write that stops before programming has changed nothing. */
  lemma UnprogrammedIsFailed(l: Placed, s: Session, offset: u32, data: HostBlock)
    requires IsImage(s.m) && s.w.Some? && IsBlock(l, offset)
    ensures WriteFailed(l, s, offset, data, s)
  {}

  /** The comparison `Write` makes before it re-writes a block. */
  lemma HeldBlock(l: Placed, s: Session, offset: u32, data: HostBlock, held: seq<byte>)
    requires IsImage(s.m) && s.w.Some? && IsBlock(l, offset) && offset + BLOCK_BYTES <= l.live.len
    requires held == s.m[l.staging.origin + offset..l.staging.origin + offset + BLOCK_BYTES]
    requires IsSet(s.w.value, offset / BLOCK_BYTES)
    ensures (exists j :: 0 <= j < BLOCK_BYTES && held[j] & data[j] != data[j]) ==>
              WriteRefused(l, s, offset, data, s)
    ensures !(exists j :: 0 <= j < BLOCK_BYTES && held[j] & data[j] != data[j]) ==>
              forall i: nat :: i < l.live.len && InBlock(offset, i) ==> Covers(Base(l, s, i), data[i - offset])
  {
    forall j | 0 <= j < BLOCK_BYTES ensures held[j] == S(l, s.m, offset + j) {}
    if j :| 0 <= j < BLOCK_BYTES && held[j] & data[j] != data[j] {
      assert !Covers(S(l, s.m, offset + j), data[offset + j - offset]);
      assert InBlock(offset, offset + j);
    } else {
      forall i: nat | i < l.live.len && InBlock(offset, i) ensures Covers(Base(l, s, i), data[i - offset]) {
        assert held[i - offset] & data[i - offset] == data[i - offset];
      }
    }
  }

  lemma LiveOverlay(l: Placed, m: Image, offset: u32, want: u32)
    requires IsImage(m) && offset + want <= l.live.len
    ensures m[l.live.origin + offset..l.live.origin + offset + want] == Overlay(l, None, m)[offset..offset + want]
  {
    var a, b := m[l.live.origin + offset..l.live.origin + offset + want], Overlay(l, None, m)[offset..offset + want];
    assert forall i :: 0 <= i < want ==> a[i] == L(l, m, offset + i) == b[i];
  }

  /** A piece that stays inside one block has one source. */
  lemma PieceOverlay(l: Placed, w: Option<Bitmap>, m: Image, at: u32, take: u32, staged: bool)
    requires IsImage(m) && w.Some? && at + take <= l.live.len && 0 < take <= BLOCK_BYTES - at % BLOCK_BYTES
    requires staged == (at / BLOCK_BYTES < BLOCKS && IsSet(w.value, at / BLOCK_BYTES))
    ensures var origin := if staged then l.staging.origin else l.live.origin;
            m[origin + at..origin + at + take] == Overlay(l, w, m)[at..at + take]
  {
    hide IsSet;
    var origin := if staged then l.staging.origin else l.live.origin;
    var a, b := m[origin + at..origin + at + take], Overlay(l, w, m)[at..at + take];
    forall i | 0 <= i < take ensures a[i] == b[i] {
      assert (at + i) / BLOCK_BYTES == at / BLOCK_BYTES;
      assert Written(l, w, at + i) == staged;
    }
  }

  class Staged {
    const l: Placed
    var written: Option<Bitmap>

    constructor (l: Placed)
      ensures this.l == l && written == None
    {
      this.l := l;
      written := None;
    }

    /** A writer over two regions, if they can serve as one another's spare. */
    static method Pair(live: Region, staging: Region) returns (r: Result<Staged, EepromError>)
      ensures r.Ok? <==> Layout(live, staging).WellPlaced()
      ensures r.Err? ==> r.error == OutOfRange
      ensures r.Ok? ==> fresh(r.value) && r.value.l == Layout(live, staging) && r.value.written == None
    {
      var apart := live.origin + live.len <= staging.origin || staging.origin + staging.len <= live.origin;
      if live.len != staging.len || Sectors(live) > MAX_SECTORS || !apart {
        return Err(OutOfRange);
      }
      var staged := new Staged(Layout(live, staging));
      return Ok(staged);
    }

    /** The first part of a commit: fills staging with every block the host did not write. */
    method Fill(eeprom: Eeprom) returns (r: Result<(), EepromError>)
      requires eeprom.Valid() && written.Some?
      modifies eeprom.bus
      ensures eeprom.Valid()
      ensures Blames(old(eeprom.bus.faults), eeprom.bus.faults, Failure(r)) && (r.Err? ==> ByDevice(r.error))
      ensures Progress(l, written, old(eeprom.bus.chip.mem), old(eeprom.bus.trace),
                       eeprom.bus.chip.mem, eeprom.bus.trace)
      ensures r.Ok? ==> Staging(l, eeprom.bus.chip.mem) == Merged(l, written, eeprom.bus.chip.mem)
    {
      hide CommitSafe, Merged, M;
      ghost var from, before := eeprom.bus.chip.mem, eeprom.bus.trace;
      CommitSafeIsReflexive(l, written, from);
      var blocks := l.live.len / BLOCK_BYTES;
      var index := 0;
      while index < blocks
        invariant 0 <= index <= blocks
        invariant eeprom.Valid()
        invariant Progress(l, written, from, before, eeprom.bus.chip.mem, eeprom.bus.trace)
        invariant FilledTo(l, written, eeprom.bus.chip.mem, index * BLOCK_BYTES)
        invariant eeprom.bus.faults == old(eeprom.bus.faults)
      {
        r := FillBlock(eeprom, index, from, before);
        if r.Err? { return; }
        index := index + 1;
      }
      return Ok(());
    }

    /** One turn of the filling loop. */
    method FillBlock(eeprom: Eeprom, index: nat, ghost from: Image, ghost before: seq<Image>)
      returns (r: Result<(), EepromError>)
      requires eeprom.Valid() && written.Some? && IsImage(from)
      requires (index + 1) * BLOCK_BYTES <= l.live.len
      requires Progress(l, written, from, before, eeprom.bus.chip.mem, eeprom.bus.trace)
      requires FilledTo(l, written, eeprom.bus.chip.mem, index * BLOCK_BYTES)
      modifies eeprom.bus
      ensures eeprom.Valid()
      ensures Blames(old(eeprom.bus.faults), eeprom.bus.faults, Failure(r)) && (r.Err? ==> ByDevice(r.error))
      ensures Progress(l, written, from, before, eeprom.bus.chip.mem, eeprom.bus.trace)
      ensures r.Ok? ==> FilledTo(l, written, eeprom.bus.chip.mem, (index + 1) * BLOCK_BYTES)
    {
      hide CommitSafe, Progress, Merged, M, FilledTo, AndAt, Change, Torn, TracedWithin, IsSet, S, L;
      var offset := index * BLOCK_BYTES;
      ghost var mid, traced := eeprom.bus.chip.mem, eeprom.bus.trace;
      if IsSet(written.value, index) {
        FillSkipsWritten(l, written, mid, index);
        return Ok(());
      }
      var got := eeprom.Read(l.live, offset, BLOCK_BYTES);
      ghost var seen := eeprom.bus.trace;
      QuietChange(mid, traced, eeprom.bus.chip.mem, seen);
      QuietProgress(l, written, mid, traced, seen);
      ProgressJoins(l, written, from, before, mid, traced, mid, seen);
      var block :- got;
      SliceOfSlice(mid, l.live.origin, l.live.len, offset, BLOCK_BYTES);
      if !AllErased(block) {
        var programmed := eeprom.Program(l.staging, offset, block);
        ghost var now, after := eeprom.bus.chip.mem, eeprom.bus.trace;
        FillPrograms(l, written, mid, seen, index, now, after, programmed.Ok?);
        ProgressJoins(l, written, from, before, mid, seen, now, after);
        var _ :- programmed;
      } else {
        FillSkipsErased(l, written, mid, index);
      }
      return Ok(());
    }

    /** The last part of a commit: copies staging back to the erased live region. */
    method CopyBack(eeprom: Eeprom) returns (r: Result<(), EepromError>)
      requires eeprom.Valid()
      requires Staging(l, eeprom.bus.chip.mem) == Merged(l, written, eeprom.bus.chip.mem)
      requires CopiedTo(l, eeprom.bus.chip.mem, 0)
      modifies eeprom.bus
      ensures eeprom.Valid()
      ensures Blames(old(eeprom.bus.faults), eeprom.bus.faults, Failure(r)) && (r.Err? ==> ByDevice(r.error))
      ensures Progress(l, written, old(eeprom.bus.chip.mem), old(eeprom.bus.trace),
                       eeprom.bus.chip.mem, eeprom.bus.trace)
      ensures r.Ok? ==> Live(l, eeprom.bus.chip.mem) == Staging(l, old(eeprom.bus.chip.mem))
    {
      hide CommitSafe, Merged, M, L, S, Progress;
      ghost var from, before := eeprom.bus.chip.mem, eeprom.bus.trace;
      ProgressIsReflexive(l, written, from, before);
      var offset := 0;
      while offset < l.live.len
        invariant 0 <= offset <= l.live.len && offset % PAGE_BYTES == 0
        invariant eeprom.Valid()
        invariant Progress(l, written, from, before, eeprom.bus.chip.mem, eeprom.bus.trace)
        invariant Staging(l, eeprom.bus.chip.mem) == Staging(l, from)
        invariant Staging(l, eeprom.bus.chip.mem) == Merged(l, written, eeprom.bus.chip.mem)
        invariant CopiedTo(l, eeprom.bus.chip.mem, offset)
        invariant eeprom.bus.faults == old(eeprom.bus.faults)
      {
        r := CopyPage(eeprom, offset, from, before);
        if r.Err? { return; }
        offset := offset + PAGE_BYTES;
      }
      CopiedAll(l, eeprom.bus.chip.mem, offset);
      return Ok(());
    }

    /** One turn of the copying loop. */
    method CopyPage(eeprom: Eeprom, offset: u32, ghost from: Image, ghost before: seq<Image>)
      returns (r: Result<(), EepromError>)
      requires eeprom.Valid() && IsImage(from)
      requires offset + PAGE_BYTES <= l.live.len
      requires Progress(l, written, from, before, eeprom.bus.chip.mem, eeprom.bus.trace)
      requires Staging(l, eeprom.bus.chip.mem) == Merged(l, written, eeprom.bus.chip.mem)
      requires CopiedTo(l, eeprom.bus.chip.mem, offset)
      modifies eeprom.bus
      ensures eeprom.Valid()
      ensures Blames(old(eeprom.bus.faults), eeprom.bus.faults, Failure(r)) && (r.Err? ==> ByDevice(r.error))
      ensures Progress(l, written, from, before, eeprom.bus.chip.mem, eeprom.bus.trace)
      ensures Staging(l, eeprom.bus.chip.mem) == Staging(l, old(eeprom.bus.chip.mem))
      ensures Staging(l, eeprom.bus.chip.mem) == Merged(l, written, eeprom.bus.chip.mem)
      ensures r.Ok? ==> CopiedTo(l, eeprom.bus.chip.mem, offset + PAGE_BYTES)
    {
      hide CommitSafe, Progress, Merged, M, CopiedTo, AndAt, Change, Torn, TracedWithin, S, L;
      ghost var mid, traced := eeprom.bus.chip.mem, eeprom.bus.trace;
      var got := eeprom.Read(l.staging, offset, PAGE_BYTES);
      ghost var seen := eeprom.bus.trace;
      QuietChange(mid, traced, eeprom.bus.chip.mem, seen);
      QuietProgress(l, written, mid, traced, seen);
      ProgressJoins(l, written, from, before, mid, traced, mid, seen);
      var page :- got;
      SliceOfSlice(mid, l.staging.origin, l.staging.len, offset, PAGE_BYTES);
      if !AllErased(page) {
        var programmed := eeprom.Program(l.live, offset, page);
        ghost var now, after := eeprom.bus.chip.mem, eeprom.bus.trace;
        CopyPrograms(l, written, mid, seen, offset, now, after, programmed.Ok?);
        ProgressJoins(l, written, from, before, mid, seen, now, after);
        var _ :- programmed;
      } else {
        CopySkipsErased(l, mid, offset);
      }
      return Ok(());
    }

    /** Fills staging, erases the live region and copies staging back, if a write is open. */
    method Commit(eeprom: Eeprom) returns (r: Result<(), EepromError>)
      requires eeprom.Valid()
      modifies this, eeprom.bus
      ensures eeprom.Valid()
      ensures Blames(old(eeprom.bus.faults), eeprom.bus.faults, Failure(r)) && (r.Err? ==> ByDevice(r.error))
      ensures old(written).None? ==>
                r.Ok? && written.None? && eeprom.bus.chip == old(eeprom.bus.chip)
                && eeprom.bus.trace == old(eeprom.bus.trace)
      ensures old(written).Some? ==>
                CommitEffect(l, old(written), old(eeprom.bus.chip.mem), old(eeprom.bus.trace),
                             eeprom.bus.chip.mem, eeprom.bus.trace, r.Ok?)
      ensures written == if r.Ok? then None else old(written)
    {
      hide CommitSafe, Merged, M, L, S, Progress, Erased, Change;
      if written.None? { return Ok(()); }
      ghost var from, before := eeprom.bus.chip.mem, eeprom.bus.trace;
      var _ :- Fill(eeprom);
      ghost var filled, fillTrace := eeprom.bus.chip.mem, eeprom.bus.trace;
      var erased := eeprom.Erase(l.live);
      ghost var gone, eraseTrace := eeprom.bus.chip.mem, eeprom.bus.trace;
      EraseProgress(l, written, filled, fillTrace, gone, eraseTrace, erased.Ok?);
      ProgressJoins(l, written, from, before, filled, fillTrace, gone, eraseTrace);
      var _ :- erased;
      ErasedLive(l, filled, fillTrace, gone, eraseTrace);
      MergedIsKept(l, written, filled, fillTrace, gone, eraseTrace);
      var copied := CopyBack(eeprom);
      ProgressJoins(l, written, from, before, gone, eraseTrace, eeprom.bus.chip.mem, eeprom.bus.trace);
      var _ :- copied;
      MergedIsKept(l, written, from, before, gone, eraseTrace);
      written := None;
      return Ok(());
    }

    ghost function Sees(eeprom: Eeprom): Session
      reads this, eeprom.bus
    {
      Session(written, eeprom.bus.chip.mem)
    }

    /** The overlay's bytes, each block from whichever region has it. */
    method Read(eeprom: Eeprom, offset: u32, want: u32) returns (r: Result<seq<byte>, EepromError>)
      requires eeprom.Valid()
      modifies eeprom.bus
      ensures eeprom.Valid()
      ensures Sees(eeprom) == old(Sees(eeprom))
      ensures Blames(old(eeprom.bus.faults), eeprom.bus.faults, Failure(r))
      ensures r.Ok? ==> if want == 0 then r.value == [] else
                          && offset + want <= l.live.len
                          && r.value == Overlay(l, written, eeprom.bus.chip.mem)[offset..offset + want]
      ensures r.Err? && !ByDevice(r.error) ==> r.error == OutOfRange
      ensures r.Ok? || !ByDevice(r.error) ==>
                (r.Err? <==> offset + want > l.live.len && (want > 0 || written.None?))
    {
      hide Overlay, IsSet, Change;
      ghost var m := eeprom.bus.chip.mem;
      if written.None? {
        r := eeprom.Read(l.live, offset, want);
        if r.Ok? { LiveOverlay(l, m, offset, want); }
        return;
      }
      hide Overlay, IsSet;
      var at: u32 := offset;
      var rest: u32 := want;
      var output := [];
      ghost var all := Overlay(l, written, m);
      while rest > 0
        invariant eeprom.Valid() && eeprom.bus.chip.mem == m
        invariant at + rest == offset + want
        invariant rest < want ==> at <= l.live.len
        invariant |output| == at - offset
        invariant at <= l.live.len ==> output == all[offset..at]
        invariant eeprom.bus.faults == old(eeprom.bus.faults)
        decreases rest
      {
        var piece :- ReadPiece(eeprom, at, rest);
        SlicesJoin(all, offset, at, |piece|);
        output := output + piece;
        at := at + |piece|;
        rest := rest - |piece|;
      }
      return Ok(output);
    }

    /** One turn of the reading loop, which takes no more than the rest of one block. */
    method ReadPiece(eeprom: Eeprom, at: u32, rest: u32) returns (r: Result<seq<byte>, EepromError>)
      requires eeprom.Valid() && written.Some? && rest > 0
      modifies eeprom.bus
      ensures eeprom.Valid()
      ensures eeprom.bus.chip.mem == old(eeprom.bus.chip.mem)
      ensures r.Ok? ==>
                && 0 < |r.value| <= rest && at + |r.value| <= l.live.len
                && r.value == Overlay(l, written, eeprom.bus.chip.mem)[at..at + |r.value|]
      ensures Blames(old(eeprom.bus.faults), eeprom.bus.faults, Failure(r))
      ensures r.Err? ==> r.error == OutOfRange || ByDevice(r.error)
      ensures r == Err(OutOfRange) ==> at + rest > l.live.len
    {
      hide Overlay, IsSet;
      var into := at % BLOCK_BYTES;
      var take := Min(rest, BLOCK_BYTES - into);
      var block := at / BLOCK_BYTES;
      var staged := block < BLOCKS && IsSet(written.value, block);
      var source := if staged then l.staging else l.live;
      ghost var m := eeprom.bus.chip.mem;
      r := eeprom.Read(source, at, take);
      if r.Ok? {
        PieceOverlay(l, written, m, at, take, staged);
      }
    }

    /** A host's block, put in staging; the first of a session clears staging for it. */
    method Write(eeprom: Eeprom, offset: u32, data: HostBlock) returns (r: Result<(), EepromError>)
      requires eeprom.Valid()
      modifies this, eeprom.bus
      ensures eeprom.Valid()
      ensures r == Err(OutOfRange) <==> !IsBlock(l, offset)
      ensures r == Err(OutOfRange) ==> Sees(eeprom) == old(Sees(eeprom))
      ensures r == Err(Rewritten) ==> WriteRefused(l, old(Sees(eeprom)), offset, data, Sees(eeprom))
      ensures r.Ok? ==> WriteAccepted(l, old(Sees(eeprom)), offset, data, Sees(eeprom))
      ensures r.Err? && r.error != OutOfRange && r.error != Rewritten ==>
                WriteFailed(l, old(Sees(eeprom)), offset, data, Sees(eeprom)) && ByDevice(r.error)
      ensures Blames(old(eeprom.bus.faults), eeprom.bus.faults, Failure(r))
      ensures KeepsLive(l, old(eeprom.bus.chip.mem), old(eeprom.bus.trace), eeprom.bus.trace)
    {
      if offset % BLOCK_BYTES != 0 || offset >= l.live.len { return Err(OutOfRange); }
      hide WriteAccepted, WriteRefused, WriteFailed, KeepsLive, Marks, Base, IsSet, Permitted, Written;
      ghost var s, before := Sees(eeprom), eeprom.bus.trace;
      BlockFits(l, offset);
      var _ :- Open(eeprom, offset, data);
      ghost var mid, ready := eeprom.bus.chip.mem, eeprom.bus.trace;
      var _ :- CheckHeld(eeprom, offset, data, s);
      ghost var seen := eeprom.bus.trace;
      KeepsLiveJoins(l, s.m, before, mid, ready, seen);
      r := ProgramAndMark(eeprom, offset, data, s);
      KeepsLiveJoins(l, s.m, before, mid, seen, eeprom.bus.trace);
    }

    /** The end of `Write`: programs the block and marks it. */
    method ProgramAndMark(eeprom: Eeprom, offset: u32, data: HostBlock, ghost s: Session)
      returns (r: Result<(), EepromError>)
      requires eeprom.Valid() && IsBlock(l, offset) && offset + BLOCK_BYTES <= l.live.len
      requires AtBase(l, s, eeprom.bus.chip.mem) && written == Some(Marks(s.w))
      requires Permitted(l, s, offset, data)
      modifies this, eeprom.bus
      ensures eeprom.Valid()
      ensures Blames(old(eeprom.bus.faults), eeprom.bus.faults, Failure(r)) && (r.Err? ==> ByDevice(r.error))
      ensures KeepsLive(l, old(eeprom.bus.chip.mem), old(eeprom.bus.trace), eeprom.bus.trace)
      ensures r.Ok? ==> WriteAccepted(l, s, offset, data, Sees(eeprom))
      ensures r.Err? ==> WriteFailed(l, s, offset, data, Sees(eeprom))
    {
      hide WriteAccepted, WriteFailed, KeepsLive, AtBase, WithSet, AndAt, Change, Marks, Base, IsSet;
      ghost var mid, traced := eeprom.bus.chip.mem, eeprom.bus.trace;
      var programmed := eeprom.Program(l.staging, offset, data);
      ProgramBlock(l, s, mid, offset, data, traced, eeprom.bus.chip.mem, eeprom.bus.trace, programmed.Ok?);
      var _ :- programmed;
      BlockFits(l, offset);
      written := Some(WithSet(written.value, offset / BLOCK_BYTES));
      return Ok(());
    }

    /** The start of `Write`: opens a session, with staging erased, unless one is open. */
    method Open(eeprom: Eeprom, offset: u32, data: HostBlock) returns (r: Result<(), EepromError>)
      requires eeprom.Valid() && IsBlock(l, offset)
      modifies this, eeprom.bus
      ensures eeprom.Valid()
      ensures Blames(old(eeprom.bus.faults), eeprom.bus.faults, Failure(r)) && (r.Err? ==> ByDevice(r.error))
      ensures KeepsLive(l, old(eeprom.bus.chip.mem), old(eeprom.bus.trace), eeprom.bus.trace)
      ensures r.Err? ==> WriteFailed(l, old(Sees(eeprom)), offset, data, Sees(eeprom))
      ensures r.Ok? ==> AtBase(l, old(Sees(eeprom)), eeprom.bus.chip.mem)
      ensures r.Ok? ==> written == Some(Marks(old(written)))
      ensures old(written).Some? ==> Sees(eeprom) == old(Sees(eeprom))
    {
      ghost var s, before := Sees(eeprom), eeprom.bus.trace;
      if written.None? {
        var erased := eeprom.Erase(l.staging);
        OpeningErase(l, s.m, before, eeprom.bus.chip.mem, eeprom.bus.trace, erased.Ok?);
        var _ :- erased;
        written := Some(EmptyBitmap());
      }
      StartsAtBase(l, s, eeprom.bus.chip.mem);
      return Ok(());
    }

    /** The middle of `Write`: a block already staged may only lose bits. */
    method CheckHeld(eeprom: Eeprom, offset: u32, data: HostBlock, ghost s: Session)
      returns (r: Result<(), EepromError>)
      requires eeprom.Valid() && IsBlock(l, offset) && offset + BLOCK_BYTES <= l.live.len
      requires AtBase(l, s, eeprom.bus.chip.mem) && written == Some(Marks(s.w))
      requires s.w.Some? ==> Sees(eeprom) == s
      modifies eeprom.bus
      ensures eeprom.Valid()
      ensures Sees(eeprom) == old(Sees(eeprom))
      ensures KeepsLive(l, old(eeprom.bus.chip.mem), old(eeprom.bus.trace), eeprom.bus.trace)
      ensures r.Err? ==> r.error == Rewritten || ByDevice(r.error)
      ensures Blames(old(eeprom.bus.faults), eeprom.bus.faults, Failure(r))
      ensures r == Err(Rewritten) ==> WriteRefused(l, s, offset, data, Sees(eeprom))
      ensures r.Err? && r.error != Rewritten ==> WriteFailed(l, s, offset, data, Sees(eeprom))
      ensures r.Ok? ==> Permitted(l, s, offset, data)
    {
      hide WriteRefused, WriteFailed, Base, IsSet, AtBase;
      ghost var mid, ready := eeprom.bus.chip.mem, eeprom.bus.trace;
      BlockFits(l, offset);
      EmptyBitmapIsUnset(offset / BLOCK_BYTES);
      if IsSet(written.value, offset / BLOCK_BYTES) {
        var got := eeprom.Read(l.staging, offset, BLOCK_BYTES);
        KeepsLiveQuietly(l, mid, ready, eeprom.bus.chip.mem, eeprom.bus.trace);
        UnprogrammedIsFailed(l, s, offset, data);
        var held :- got;
        HeldBlock(l, s, offset, data, held);
        if exists j :: 0 <= j < BLOCK_BYTES && held[j] & data[j] != data[j] {
          return Err(Rewritten);
        }
      }
      return Ok(());
    }
  }
}
