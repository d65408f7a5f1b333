/** What a host sees over whole runs of staged writes and commits. */
module StagedRun {
  import opened Wrappers
  import opened NorImage
  import opened StagedImage

  /** The bitmap in memory and the bytes on the device. */
  datatype Session = Session(w: Option<Bitmap>, m: Image)

  type HostBlock = d: seq<byte> | |d| == BLOCK_BYTES witness [0, 0, 0, 0, 0, 0, 0, 0]

  predicate IsBlock(l: Placed, offset: u32) {
    offset % BLOCK_BYTES == 0 && offset < l.live.len
  }

  /** Staging byte `i` as a write finds it: the first write of a session erases it. */
  function Base(l: Placed, s: Session, i: nat): byte
    requires IsImage(s.m) && i < l.live.len
  {
    if s.w.None? then ERASED_BYTE else S(l, s.m, i)
  }

  function Marks(w: Option<Bitmap>): Bitmap {
    if w.None? then EmptyBitmap() else w.value
  }

  predicate InBlock(offset: int, i: int) { offset <= i < offset + BLOCK_BYTES }

  /** A write never touches the live region. */
  predicate LiveKept(l: Placed, s: Session, t: Session) {
    && IsImage(s.m) && IsImage(t.m)
    && Elsewhere(l, s.m, t.m)
    && Live(l, t.m) == Live(l, s.m)
  }

  /** A block written before may be written again as long as it needs no bit set again. */
  predicate Permitted(l: Placed, s: Session, offset: u32, data: HostBlock)
    requires IsImage(s.m) && offset < l.live.len
  {
    Written(l, s.w, offset) ==>
      forall i: nat :: i < l.live.len && InBlock(offset, i) ==> Covers(Base(l, s, i), data[i - offset])
  }

  /** An accepted block: it is marked, and its bytes are programmed over what was there. */
  predicate WriteAccepted(l: Placed, s: Session, offset: u32, data: HostBlock, t: Session) {
    && LiveKept(l, s, t)
    && IsBlock(l, offset)
    && t.w == Some(WithSet(Marks(s.w), offset / BLOCK_BYTES))
    && (forall i: nat :: i < l.live.len && !InBlock(offset, i) ==> S(l, t.m, i) == Base(l, s, i))
    && (forall i: nat :: i < l.live.len && InBlock(offset, i) ==>
          S(l, t.m, i) == Base(l, s, i) & data[i - offset])
    && Permitted(l, s, offset, data)
  }

  /** A refused block: it was written before, and lacks a bit that is now wanted. */
  predicate WriteRefused(l: Placed, s: Session, offset: u32, data: HostBlock, t: Session) {
    && IsImage(s.m) && t == s
    && IsBlock(l, offset)
    && Written(l, s.w, offset)
    && exists i: nat :: i < l.live.len && InBlock(offset, i) && !Covers(S(l, s.m, i), data[i - offset])
  }

  /** A write the bus failed: either the opening erase did not finish and no write is open,
      or the block may be partly programmed and is not marked by this write. One that would
      have been refused fails before anything is programmed. */
  predicate WriteFailed(l: Placed, s: Session, offset: u32, data: HostBlock, t: Session) {
    && LiveKept(l, s, t)
    && IsBlock(l, offset)
    && (Permitted(l, s, offset, data) || t == s)
    && if t.w.None? then s.w.None? else
         && t.w == Some(Marks(s.w))
         && (forall i: nat :: i < l.live.len && !InBlock(offset, i) ==> S(l, t.m, i) == Base(l, s, i))
         && (forall i: nat :: i < l.live.len && InBlock(offset, i) ==>
               Between(S(l, t.m, i), Base(l, s, i), Base(l, s, i) & data[i - offset]))
  }

  // ---------------------------------------------------------------- One write

  /** `bytes` with the block at `offset` replaced. */
  function WithBlock(bytes: seq<byte>, offset: nat, data: HostBlock): (r: seq<byte>)
    requires offset + BLOCK_BYTES <= |bytes|
    ensures |r| == |bytes|
  {
    bytes[..offset] + data + bytes[offset + BLOCK_BYTES..]
  }

  lemma BlockFits(l: Placed, offset: u32)
    requires IsBlock(l, offset)
    ensures offset + BLOCK_BYTES <= l.live.len
    ensures offset / BLOCK_BYTES < BLOCKS
  {}

  /** A byte is marked after a write exactly when it was marked before or is in the block. */
  lemma MarkedAfter(l: Placed, w: Option<Bitmap>, offset: u32, i: nat)
    requires IsBlock(l, offset) && i < l.live.len
    ensures offset / BLOCK_BYTES < BLOCKS
    ensures Written(l, Some(WithSet(Marks(w), offset / BLOCK_BYTES)), i)
       <==> InBlock(offset, i) || Written(l, w, i)
  {
    BlockFits(l, offset);
    WithSetMarksOne(Marks(w), offset / BLOCK_BYTES, i / BLOCK_BYTES);
    if w.None? {
      EmptyBitmapIsUnset(i / BLOCK_BYTES);
    }
  }

  /** What the host reads back after an accepted write, on any device: everything outside
      the block as before, and the block's bytes less any bit staging had already lost. */
  lemma AcceptedOverlay(l: Placed, s: Session, offset: u32, data: HostBlock, t: Session, i: nat)
    requires WriteAccepted(l, s, offset, data, t) && i < l.live.len
    ensures Overlay(l, t.w, t.m)[i]
         == if InBlock(offset, i) then Base(l, s, i) & data[i - offset] else Overlay(l, s.w, s.m)[i]
  {
    MarkedAfter(l, s.w, offset, i);
    assert Live(l, t.m)[i] == Live(l, s.m)[i];
  }

  lemma WithBlockAt(bytes: seq<byte>, offset: nat, data: HostBlock, i: nat)
    requires offset + BLOCK_BYTES <= |bytes| && i < |bytes|
    ensures WithBlock(bytes, offset, data)[i] == if InBlock(offset, i) then data[i - offset] else bytes[i]
  {}

  lemma CoveredAnd(base: byte, data: byte)
    requires base == ERASED_BYTE || Covers(base, data)
    ensures base & data == data
  {}

  lemma SameBlock(l: Placed, w: Option<Bitmap>, offset: u32, i: nat)
    requires IsBlock(l, offset) && InBlock(offset, i) && i < l.live.len
    ensures Written(l, w, i) == Written(l, w, offset)
  {
    assert i / BLOCK_BYTES == offset / BLOCK_BYTES;
  }

  lemma CleanBase(l: Placed, s: Session, i: nat)
    requires IsImage(s.m) && Clean(l, s.w, s.m) && i < l.live.len && !Written(l, s.w, i)
    ensures Base(l, s, i) == ERASED_BYTE
  {}

  /** Where staging still has every bit the new bytes need, an accepted write is exact. */
  lemma AcceptedByteIsFlat(l: Placed, s: Session, offset: u32, data: HostBlock, t: Session, before: seq<byte>, i: nat)
    requires WriteAccepted(l, s, offset, data, t) && i < l.live.len == |before|
    requires offset + BLOCK_BYTES <= l.live.len
    requires InBlock(offset, i) ==> Base(l, s, i) == ERASED_BYTE || Covers(Base(l, s, i), data[i - offset])
    requires !InBlock(offset, i) ==> Overlay(l, s.w, s.m)[i] == before[i]
    ensures Overlay(l, t.w, t.m)[i] == WithBlock(before, offset, data)[i]
  {
    assert IsImage(s.m);
    hide WriteAccepted, Overlay, WithBlock;
    AcceptedOverlay(l, s, offset, data, t, i);
    WithBlockAt(before, offset, data, i);
    if InBlock(offset, i) {
      CoveredAnd(Base(l, s, i), data[i - offset]);
    }
  }

  lemma AcceptedStaysClean(l: Placed, s: Session, offset: u32, data: HostBlock, t: Session, i: nat)
    requires WriteAccepted(l, s, offset, data, t) && i < l.live.len && !Written(l, t.w, i)
    ensures !InBlock(offset, i) && !Written(l, s.w, i) && S(l, t.m, i) == Base(l, s, i)
  {
    hide Written, IsSet, WithSet;
    MarkedAfter(l, s.w, offset, i);
  }

  /** On a clean session an accepted write replaces exactly its eight bytes, first writes
      and re-writes alike, and the session stays clean. */
  lemma AcceptedWriteIsFlat(l: Placed, s: Session, offset: u32, data: HostBlock, t: Session)
    requires WriteAccepted(l, s, offset, data, t) && Clean(l, s.w, s.m)
    ensures offset + BLOCK_BYTES <= l.live.len
    ensures Overlay(l, t.w, t.m) == WithBlock(Overlay(l, s.w, s.m), offset, data)
    ensures Clean(l, t.w, t.m)
  {
    hide Written, IsSet, WithSet, Overlay, WithBlock, Base;
    BlockFits(l, offset);
    forall i: nat | i < l.live.len
      ensures Overlay(l, t.w, t.m)[i] == WithBlock(Overlay(l, s.w, s.m), offset, data)[i]
    {
      if InBlock(offset, i) {
        SameBlock(l, s.w, offset, i);
        if !Written(l, s.w, i) { CleanBase(l, s, i); }
      }
      AcceptedByteIsFlat(l, s, offset, data, t, Overlay(l, s.w, s.m), i);
    }
    forall i: nat | i < l.live.len && !Written(l, t.w, i) ensures S(l, t.m, i) == ERASED_BYTE {
      AcceptedStaysClean(l, s, offset, data, t, i);
      CleanBase(l, s, i);
    }
  }

  /** A failed write changes nothing the host reads back, unless it was re-writing a block;
      then only that block may differ. */
  lemma FailedWriteKeepsOverlay(l: Placed, s: Session, offset: u32, data: HostBlock, t: Session, i: nat)
    requires WriteFailed(l, s, offset, data, t) && i < l.live.len
    requires !InBlock(offset, i) || !Written(l, s.w, i)
    ensures Overlay(l, t.w, t.m)[i] == Overlay(l, s.w, s.m)[i]
  {
    assert Live(l, t.m)[i] == Live(l, s.m)[i];
    if s.w.None? && t.w.Some? {
      EmptyBitmapIsUnset(i / BLOCK_BYTES);
    }
  }

  // ---------------------------------------------------------------- Commits

  /** How one attempt at a commit ended. */
  datatype Attempt = Attempt(now: Image, trace: seq<Image>, passed: bool)

  /** Attempts made one after another, each starting where the last one stopped. */
  ghost predicate CommitRun(l: Placed, w: Option<Bitmap>, m: Image, trace: seq<Image>, attempts: seq<Attempt>)
    decreases |attempts|
  {
    && IsImage(m)
    && (attempts != [] ==>
          && CommitEffect(l, w, m, trace, attempts[0].now, attempts[0].trace, attempts[0].passed)
          && CommitRun(l, w, attempts[0].now, attempts[0].trace, attempts[1..]))
  }

  lemma {:induction false} CommitRunIsProgress(l: Placed, w: Option<Bitmap>, m: Image, trace: seq<Image>,
                                               attempts: seq<Attempt>)
    requires CommitRun(l, w, m, trace, attempts) && attempts != []
    ensures var last := attempts[|attempts| - 1];
            CommitEffect(l, w, m, trace, last.now, last.trace, last.passed)
    decreases |attempts|
  {
    hide CommitSafe, Merged;
    if |attempts| > 1 {
      var first, last := attempts[0], attempts[|attempts| - 1];
      CommitRunIsProgress(l, w, first.now, first.trace, attempts[1..]);
      assert attempts[1..][|attempts[1..]| - 1] == last;
      ProgressJoins(l, w, m, trace, first.now, first.trace, last.now, last.trace);
      SameMerge(l, w, m, first.now);
    }
  }

  lemma SameMerge(l: Placed, w: Option<Bitmap>, from: Image, m: Image)
    requires IsImage(from) && CommitSafe(l, w, from, m)
    ensures IsImage(m) && Merged(l, w, m) == Merged(l, w, from)
  {}

  lemma CleanMergeIsOverlay(l: Placed, w: Option<Bitmap>, m: Image)
    requires IsImage(m) && Clean(l, w, m) && w.Some?
    ensures Merged(l, w, m) == Overlay(l, w, m)
  {
    CommitKeepsOverlayExactlyWhen(l, w, m);
  }

  /** Crash safety over any number of commit attempts on a clean session: in every image
      the device passes through, either the live region still holds the old contents byte
      for byte or the staging region holds everything the host read back. */
  lemma CommitsLoseNothing(l: Placed, w: Option<Bitmap>, m: Image, trace: seq<Image>, attempts: seq<Attempt>, k: nat)
    requires CommitRun(l, w, m, trace, attempts) && attempts != []
    requires w.Some? && Clean(l, w, m)
    requires |trace| <= k < |attempts[|attempts| - 1].trace|
    ensures var x := attempts[|attempts| - 1].trace[k];
            && IsImage(x)
            && (Live(l, x) == Live(l, m) || Staging(l, x) == Overlay(l, w, m))
  {
    CommitRunIsProgress(l, w, m, trace, attempts);
    CleanMergeIsOverlay(l, w, m);
  }

  /** However many attempts fail first, the one that passes makes live exactly what the
      host read back before the first of them. */
  lemma FirstPassingCommitIsExact(l: Placed, w: Option<Bitmap>, m: Image, trace: seq<Image>, attempts: seq<Attempt>)
    requires CommitRun(l, w, m, trace, attempts) && attempts != [] && attempts[|attempts| - 1].passed
    requires w.Some? && Clean(l, w, m)
    ensures var x := attempts[|attempts| - 1].now;
            IsImage(x) && Live(l, x) == Overlay(l, w, m)
  {
    CommitRunIsProgress(l, w, m, trace, attempts);
    CleanMergeIsOverlay(l, w, m);
  }

  // ---------------------------------------------------------------- Runs

  /** One host operation. */
  datatype Event =
    | Accepted(offset: u32, data: HostBlock)
    | Refused(offset: u32, data: HostBlock)
    | Failed(offset: u32, data: HostBlock)
    | Committed(before: seq<Image>, after: seq<Image>)
    | Interrupted(before: seq<Image>, after: seq<Image>)
  {
    predicate ByBus() { Failed? || Interrupted? }
  }

  ghost predicate Step(l: Placed, s: Session, e: Event, t: Session) {
    match e
    case Accepted(offset, data) => WriteAccepted(l, s, offset, data, t)
    case Refused(offset, data) => WriteRefused(l, s, offset, data, t) || (!IsBlock(l, offset) && IsImage(s.m) && t == s)
    case Failed(offset, data) => WriteFailed(l, s, offset, data, t)
    case Committed(before, after) =>
      && IsImage(s.m) && IsImage(t.m) && t.w.None?
      && if s.w.None? then t == s else CommitEffect(l, s.w, s.m, before, t.m, after, true)
    case Interrupted(before, after) =>
      && IsImage(s.m) && IsImage(t.m) && s.w.Some? && t.w == s.w
      && CommitEffect(l, s.w, s.m, before, t.m, after, false)
  }

  /** The same operations on a flat array of bytes. */
  function Replay(l: Placed, bytes: seq<byte>, events: seq<Event>): (r: seq<byte>)
    requires |bytes| == l.live.len
    requires forall e :: e in events && e.Accepted? ==> IsBlock(l, e.offset)
    ensures |r| == |bytes|
    decreases |events|
  {
    if events == [] then bytes
    else
      var e := events[|events| - 1];
      var before := Replay(l, bytes, events[..|events| - 1]);
      if e.Accepted? then (BlockFits(l, e.offset); WithBlock(before, e.offset, e.data)) else before
  }

  ghost predicate Run(l: Placed, sessions: seq<Session>, events: seq<Event>) {
    && |sessions| == |events| + 1
    && forall k :: 0 <= k < |events| ==> Step(l, sessions[k], events[k], sessions[k + 1])
  }

  lemma CommitIsFlat(l: Placed, s: Session, before: seq<Image>, after: seq<Image>, t: Session)
    requires Step(l, s, Committed(before, after), t) && Clean(l, s.w, s.m)
    ensures Overlay(l, t.w, t.m) == Live(l, t.m) == Overlay(l, s.w, s.m)
    ensures Clean(l, t.w, t.m)
  {
    assert Overlay(l, t.w, t.m) == Live(l, t.m);
    if s.w.Some? { CleanMergeIsOverlay(l, s.w, s.m); }
  }

  /** One operation the bus did not fail, on a clean session. */
  lemma StepIsFlat(l: Placed, s: Session, e: Event, t: Session)
    requires Step(l, s, e, t) && !e.ByBus() && IsImage(s.m) && Clean(l, s.w, s.m)
    ensures IsImage(t.m) && Clean(l, t.w, t.m)
    ensures e.Accepted? ==> IsBlock(l, e.offset) && e.offset + BLOCK_BYTES <= l.live.len
    ensures Overlay(l, t.w, t.m)
         == if e.Accepted? then WithBlock(Overlay(l, s.w, s.m), e.offset, e.data) else Overlay(l, s.w, s.m)
  {
    if e.Accepted? {
      AcceptedWriteIsFlat(l, s, e.offset, e.data, t);
    } else if e.Committed? {
      CommitIsFlat(l, s, e.before, e.after, t);
    }
    hide CommitEffect, Overlay, WithBlock, Clean;
  }

  lemma ClosedOverlay(l: Placed, m: Image)
    requires IsImage(m)
    ensures Overlay(l, None, m) == Live(l, m)
  {}

  /** Over every run without a bus failure the staged region is a flat array of bytes:
      an accepted write replaces its eight bytes, a refusal and a commit change nothing,
      and after a commit the array is what the live region holds. */
  lemma {:induction false} RunIsFlatArray(l: Placed, sessions: seq<Session>, events: seq<Event>)
    requires Run(l, sessions, events) && IsImage(sessions[0].m) && Clean(l, sessions[0].w, sessions[0].m)
    requires forall e :: e in events ==> !e.ByBus()
    ensures forall e :: e in events && e.Accepted? ==> IsBlock(l, e.offset)
    ensures var last := sessions[|events|];
            && IsImage(last.m)
            && Clean(l, last.w, last.m)
            && Overlay(l, last.w, last.m) == Replay(l, Overlay(l, sessions[0].w, sessions[0].m), events)
            && (last.w.None? ==> Live(l, last.m) == Overlay(l, last.w, last.m))
    decreases |events|
  {
    hide Step, Overlay, WithBlock, Clean;
    var last := sessions[|events|];
    if events != [] {
      var n := |events| - 1;
      var e, s := events[n], sessions[n];
      assert Run(l, sessions[..n + 1], events[..n]);
      forall x | x in events[..n] ensures !x.ByBus() { assert x in events; }
      RunIsFlatArray(l, sessions[..n + 1], events[..n]);
      assert Step(l, s, e, last);
      assert e in events;
      StepIsFlat(l, s, e, last);
      assert forall x :: x in events ==> x in events[..n] || x == e;
    }
    ClosedOverlay(l, last.m);
  }
}
