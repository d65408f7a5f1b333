/** The guard of a run with failures is exact: where it does not hold, the same calls with the
    same outcomes can leave the host with other bytes than it wrote. */
module StagedGuard {
  import opened Wrappers
  import opened NorImage
  import opened StagedImage
  import opened StagedRun
  import opened StagedFailure
  import opened CommitFailure

  // ---------------------------------------------------------------- Another device, one block apart

  /** The same write open on a device that differs from `s` in one block at most, in staging and
      live; it may be open where `s` is not yet. */
  ghost predicate AltOf(l: Placed, s: Session, o: u32, a: Session) {
    && IsImage(s.m) && IsImage(a.m)
    && a.w == Some(Marks(s.w))
    && Elsewhere(l, s.m, a.m)
    && forall i: nat :: i < l.live.len && !InBlock(o, i) ==>
         S(l, a.m, i) == Base(l, s, i) && L(l, a.m, i) == L(l, s.m, i)
  }

  function BlockOf(l: Placed, m: Image, origin: nat, o: u32): HostBlock
    requires IsImage(m) && IsBlock(l, o) && (origin == l.live.origin || origin == l.staging.origin)
  {
    BlockFits(l, o);
    m[origin + o..origin + o + BLOCK_BYTES]
  }

  lemma BlockOfBytes(l: Placed, m: Image, o: u32, i: nat)
    requires IsImage(m) && IsBlock(l, o) && i < l.live.len && InBlock(o, i)
    ensures BlockOf(l, m, l.staging.origin, o)[i - o] == S(l, m, i)
    ensures BlockOf(l, m, l.live.origin, o)[i - o] == L(l, m, i)
  {}

  /** An open session with the block at `o` replaced, in staging and live. */
  function Graft(l: Placed, t: Session, o: u32, staged: HostBlock, live: HostBlock): (b: Session)
    requires IsImage(t.m) && IsBlock(l, o)
    ensures IsImage(b.m)
  {
    BlockFits(l, o);
    Session(t.w, Spliced(Spliced(t.m, l.staging.origin + o, staged), l.live.origin + o, live))
  }

  lemma GraftBytes(l: Placed, t: Session, o: u32, staged: HostBlock, live: HostBlock)
    requires IsImage(t.m) && IsBlock(l, o)
    ensures var b := Graft(l, t, o, staged, live);
            && b.w == t.w && Elsewhere(l, t.m, b.m)
            && forall i: nat :: i < l.live.len ==>
                 && S(l, b.m, i) == (if InBlock(o, i) then staged[i - o] else S(l, t.m, i))
                 && L(l, b.m, i) == (if InBlock(o, i) then live[i - o] else L(l, t.m, i))
  {
    hide Spliced;
    BlockFits(l, o);
    SplicedAt(t.m, l.staging.origin + o, staged);
    SplicedAt(Spliced(t.m, l.staging.origin + o, staged), l.live.origin + o, live);
  }

  lemma AltAt(l: Placed, s: Session, o: u32, a: Session, i: nat)
    requires AltOf(l, s, o, a) && i < l.live.len
    ensures IsImage(s.m) && IsImage(a.m) && a.w.Some? && Base(l, a, i) == S(l, a.m, i)
    ensures Written(l, a.w, i) == Written(l, s.w, i)
    ensures !InBlock(o, i) ==> S(l, a.m, i) == Base(l, s, i) && L(l, a.m, i) == L(l, s.m, i)
  {
    SameMarks(l, s.w, i);
    BaseIs(l, a, i);
    hide Base, S, L, Written;
  }

  lemma AltIsElsewhere(l: Placed, s: Session, o: u32, a: Session, t: Session, b: Session)
    requires AltOf(l, s, o, a) && AltOf(l, t, o, b) && Elsewhere(l, s.m, t.m)
    ensures Elsewhere(l, a.m, b.m)
  {
    hide Base, S, L;
  }

  lemma OtherBlock(l: Placed, o: u32, offset: u32, i: nat)
    requires IsBlock(l, o) && IsBlock(l, offset) && o != offset && InBlock(offset, i)
    ensures !InBlock(o, i)
  {}

  /** `t` with the block of `a`. */
  function Kept(l: Placed, t: Session, o: u32, a: Session): (b: Session)
    requires IsImage(t.m) && IsImage(a.m) && IsBlock(l, o)
    ensures IsImage(b.m)
  {
    Graft(l, t, o, BlockOf(l, a.m, l.staging.origin, o), BlockOf(l, a.m, l.live.origin, o))
  }

  lemma KeptBytes(l: Placed, t: Session, o: u32, a: Session)
    requires IsImage(t.m) && IsImage(a.m) && IsBlock(l, o)
    ensures var b := Kept(l, t, o, a);
            && b.w == t.w && Elsewhere(l, t.m, b.m)
            && forall i: nat :: i < l.live.len ==>
                 && S(l, b.m, i) == (if InBlock(o, i) then S(l, a.m, i) else S(l, t.m, i))
                 && L(l, b.m, i) == (if InBlock(o, i) then L(l, a.m, i) else L(l, t.m, i))
  {
    hide Graft, S, L, BlockOf;
    GraftBytes(l, t, o, BlockOf(l, a.m, l.staging.origin, o), BlockOf(l, a.m, l.live.origin, o));
    forall i: nat | i < l.live.len && InBlock(o, i)
      ensures S(l, Kept(l, t, o, a).m, i) == S(l, a.m, i) && L(l, Kept(l, t, o, a).m, i) == L(l, a.m, i)
    {
      BlockOfBytes(l, a.m, o, i);
    }
  }

  lemma KeptIsAlt(l: Placed, t: Session, o: u32, a: Session)
    requires IsImage(t.m) && IsImage(a.m) && IsBlock(l, o) && t.w.Some?
    ensures AltOf(l, t, o, Kept(l, t, o, a))
  {
    hide Kept, S, L, Elsewhere;
    KeptBytes(l, t, o, a);
  }

  lemma LiveKeptBytes(l: Placed, a: Session, b: Session)
    requires IsImage(a.m) && IsImage(b.m) && Elsewhere(l, a.m, b.m)
    requires forall i: nat :: i < l.live.len ==> L(l, b.m, i) == L(l, a.m, i)
    ensures LiveKept(l, a, b)
  {
    hide Elsewhere;
  }

  /** A write of another block, accepted there as here. */
  lemma AltAccepted(l: Placed, s: Session, offset: u32, data: HostBlock, t: Session, o: u32, a: Session)
    requires WriteAccepted(l, s, offset, data, t) && AltOf(l, s, o, a) && IsBlock(l, o) && offset != o
    ensures IsImage(t.m)
    ensures WriteAccepted(l, a, offset, data, Kept(l, t, o, a)) && AltOf(l, t, o, Kept(l, t, o, a))
  {
    hide Kept, S, L, Base, Elsewhere, Written, IsSet, WithSet, AltOf, Covers;
    AltAt(l, s, o, a, 0);
    WrittenElsewhere(l, s, offset, data, t);
    var b := Kept(l, t, o, a);
    KeptBytes(l, t, o, a);
    KeptIsAlt(l, t, o, a);
    AltIsElsewhere(l, s, o, a, t, b);
    forall i: nat | i < l.live.len
      ensures L(l, b.m, i) == L(l, a.m, i)
      ensures S(l, b.m, i) == if InBlock(offset, i) then Both(Base(l, a, i), data[i - offset]) else Base(l, a, i)
    {
      AltAt(l, s, o, a, i);
      AcceptedByte(l, s, offset, data, t, i);
      if InBlock(offset, i) { OtherBlock(l, o, offset, i); }
    }
    LiveKeptBytes(l, a, b);
    AltPermitted(l, s, offset, data, o, a);
    AltMarks(l, s, o, a);
    AcceptedFromBytes(l, a, offset, data, b);
  }

  lemma AltMarks(l: Placed, s: Session, o: u32, a: Session)
    requires AltOf(l, s, o, a)
    ensures Marks(a.w) == Marks(s.w)
  {}

  lemma WrittenElsewhere(l: Placed, s: Session, offset: u32, data: HostBlock, t: Session)
    requires WriteAccepted(l, s, offset, data, t)
    ensures IsImage(s.m) && IsImage(t.m) && Elsewhere(l, s.m, t.m) && IsBlock(l, offset)
    ensures t.w == Some(WithSet(Marks(s.w), offset / BLOCK_BYTES)) && Permitted(l, s, offset, data)
  {}

  lemma AcceptedFromBytes(l: Placed, a: Session, offset: u32, data: HostBlock, b: Session)
    requires LiveKept(l, a, b) && IsBlock(l, offset) && Permitted(l, a, offset, data)
    requires offset / BLOCK_BYTES < BLOCKS ==> b.w == Some(WithSet(Marks(a.w), offset / BLOCK_BYTES))
    requires forall i: nat :: i < l.live.len ==>
               S(l, b.m, i) == if InBlock(offset, i) then Both(Base(l, a, i), data[i - offset]) else Base(l, a, i)
    ensures WriteAccepted(l, a, offset, data, b)
  {
    BlockFits(l, offset);
    hide LiveKept, S, Base, Permitted;
  }

  lemma AltPermitted(l: Placed, s: Session, offset: u32, data: HostBlock, o: u32, a: Session)
    requires AltOf(l, s, o, a) && IsBlock(l, o) && IsBlock(l, offset) && offset != o && IsImage(s.m)
    requires Permitted(l, s, offset, data)
    ensures IsImage(a.m) && Permitted(l, a, offset, data)
  {
    hide AltOf, S, L, Base, Written, Covers;
    AltAt(l, s, o, a, offset);
    forall i: nat | i < l.live.len && InBlock(offset, i) ensures Base(l, a, i) == Base(l, s, i) {
      AltAt(l, s, o, a, i);
      OtherBlock(l, o, offset, i);
    }
  }

  /** A write of another block that fails, there as here. */
  lemma AltFailed(l: Placed, s: Session, offset: u32, data: HostBlock, t: Session, o: u32, a: Session)
    requires WriteFailed(l, s, offset, data, t) && AltOf(l, s, o, a) && IsBlock(l, o) && offset != o && t.w.Some?
    requires Permitted(l, s, offset, data)
    ensures IsImage(t.m)
    ensures WriteFailed(l, a, offset, data, Kept(l, t, o, a)) && AltOf(l, t, o, Kept(l, t, o, a))
  {
    hide Kept, S, L, Base, Elsewhere, Written, IsSet, AltOf, Covers, Between, Permitted;
    AltAt(l, s, o, a, 0);
    var b := Kept(l, t, o, a);
    KeptBytes(l, t, o, a);
    KeptIsAlt(l, t, o, a);
    AltIsElsewhere(l, s, o, a, t, b);
    forall i: nat | i < l.live.len
      ensures L(l, b.m, i) == L(l, a.m, i)
      ensures if InBlock(offset, i) then Between(S(l, b.m, i), Base(l, a, i), Both(Base(l, a, i), data[i - offset]))
              else S(l, b.m, i) == Base(l, a, i)
    {
      AltAt(l, s, o, a, i);
      FailedByte(l, s, offset, data, t, i);
      if InBlock(offset, i) { OtherBlock(l, o, offset, i); }
    }
    LiveKeptBytes(l, a, b);
    AltPermitted(l, s, offset, data, o, a);
    AltMarks(l, s, o, a);
    FailedFromBytes(l, a, offset, data, b);
  }

  lemma FailedFromBytes(l: Placed, a: Session, offset: u32, data: HostBlock, b: Session)
    requires LiveKept(l, a, b) && IsBlock(l, offset) && Permitted(l, a, offset, data) && b.w == Some(Marks(a.w))
    requires forall i: nat :: i < l.live.len ==>
               if InBlock(offset, i) then Between(S(l, b.m, i), Base(l, a, i), Both(Base(l, a, i), data[i - offset]))
               else S(l, b.m, i) == Base(l, a, i)
    ensures WriteFailed(l, a, offset, data, b)
  {
    hide LiveKept, S, Base, Permitted, Between;
  }

  /** A write that fails before it programs anything. */
  lemma NothingProgrammed(l: Placed, a: Session, offset: u32, data: HostBlock)
    requires IsImage(a.m) && a.w.Some? && IsBlock(l, offset)
    ensures WriteFailed(l, a, offset, data, a)
  {}

  /** Where a failed write left the rest alone, the other device is still one block apart. */
  lemma AltStays(l: Placed, s: Session, offset: u32, data: HostBlock, t: Session, o: u32, a: Session)
    requires WriteFailed(l, s, offset, data, t) && AltOf(l, s, o, a) && IsBlock(l, o)
    requires offset == o || t.w.None? || !Permitted(l, s, offset, data)
    ensures WriteFailed(l, a, offset, data, a) && AltOf(l, t, o, a)
  {
    hide S, L, Written, IsSet, AltOf, Covers, Between, Permitted;
    AltAt(l, s, o, a, 0);
    NothingProgrammed(l, a, offset, data);
    if t != s {
      FailedMarks(l, s, offset, data, t);
      forall i: nat | i < l.live.len && !InBlock(o, i)
        ensures S(l, a.m, i) == Base(l, t, i) && L(l, a.m, i) == L(l, t.m, i)
      {
        AltAt(l, s, o, a, i);
        FailedByte(l, s, offset, data, t, i);
        BaseIs(l, s, i);
        BaseIs(l, t, i);
      }
      AltFromBytes(l, s, o, a, t);
    }
  }

  lemma FailedMarks(l: Placed, s: Session, offset: u32, data: HostBlock, t: Session)
    requires WriteFailed(l, s, offset, data, t)
    ensures IsImage(s.m) && IsImage(t.m) && Elsewhere(l, s.m, t.m) && Marks(t.w) == Marks(s.w)
  {
    hide Between, Permitted, S, Base;
  }

  lemma AltFromBytes(l: Placed, s: Session, o: u32, a: Session, t: Session)
    requires AltOf(l, s, o, a) && IsImage(t.m) && Elsewhere(l, s.m, t.m) && Marks(t.w) == Marks(s.w)
    requires forall i: nat :: i < l.live.len && !InBlock(o, i) ==>
               S(l, a.m, i) == Base(l, t, i) && L(l, a.m, i) == L(l, t.m, i)
    ensures AltOf(l, t, o, a)
  {
    hide S, L, Base;
  }

  /** What a failed commit makes of the block there: filled, unless it was written. */
  function Filling(l: Placed, t: Session, o: u32, a: Session): (b: Session)
    requires IsImage(t.m) && IsImage(a.m) && IsBlock(l, o)
    ensures IsImage(b.m)
  {
    var staged, live := BlockOf(l, a.m, l.staging.origin, o), BlockOf(l, a.m, l.live.origin, o);
    Graft(l, t, o, if Written(l, a.w, o) then staged
                   else seq(BLOCK_BYTES, j requires 0 <= j < BLOCK_BYTES => Both(staged[j], live[j])), live)
  }

  lemma FillingBytes(l: Placed, t: Session, o: u32, a: Session)
    requires IsImage(t.m) && IsImage(a.m) && IsBlock(l, o)
    ensures var b := Filling(l, t, o, a);
            && b.w == t.w && Elsewhere(l, t.m, b.m)
            && forall i: nat :: i < l.live.len ==>
                 && S(l, b.m, i) == (if !InBlock(o, i) then S(l, t.m, i)
                                     else if Written(l, a.w, o) then S(l, a.m, i) else Both(S(l, a.m, i), L(l, a.m, i)))
                 && L(l, b.m, i) == (if InBlock(o, i) then L(l, a.m, i) else L(l, t.m, i))
  {
    hide Graft, S, L, BlockOf, Written, Both;
    var staged, live := BlockOf(l, a.m, l.staging.origin, o), BlockOf(l, a.m, l.live.origin, o);
    GraftBytes(l, t, o, if Written(l, a.w, o) then staged
                        else seq(BLOCK_BYTES, j requires 0 <= j < BLOCK_BYTES => Both(staged[j], live[j])), live);
    forall i: nat | i < l.live.len && InBlock(o, i)
      ensures staged[i - o] == S(l, a.m, i) && live[i - o] == L(l, a.m, i)
    {
      BlockOfBytes(l, a.m, o, i);
    }
  }

  lemma FillingIsAlt(l: Placed, t: Session, o: u32, a: Session)
    requires IsImage(t.m) && IsImage(a.m) && IsBlock(l, o) && t.w.Some?
    ensures AltOf(l, t, o, Filling(l, t, o, a))
  {
    hide Filling, S, L, Elsewhere, Written, Both;
    FillingBytes(l, t, o, a);
  }

  /** One byte of that: its merge is kept, staging loses bits at most, and in the block it holds
      the merge already. */
  lemma FillingByte(l: Placed, s: Session, e: Event, t: Session, o: u32, a: Session, i: nat)
    requires e.Interrupted? && Step(l, s, e, t) && AltOf(l, s, o, a) && IsBlock(l, o) && i < l.live.len
    ensures IsImage(s.m) && IsImage(t.m) && IsImage(a.m)
    ensures var b := Filling(l, t, o, a);
            && M(l, a.w, b.m, i) == M(l, a.w, a.m, i)
            && Covers(S(l, a.m, i), S(l, b.m, i))
            && (InBlock(o, i) ==> S(l, b.m, i) == M(l, a.w, a.m, i) && L(l, b.m, i) == L(l, a.m, i))
            && (!InBlock(o, i) ==>
                  && S(l, b.m, i) == S(l, t.m, i) && L(l, b.m, i) == L(l, t.m, i)
                  && S(l, a.m, i) == S(l, s.m, i) && L(l, a.m, i) == L(l, s.m, i)
                  && M(l, a.w, a.m, i) == M(l, s.w, s.m, i))
  {
    hide Filling, S, L, Written, AltOf, Base, Step, Both, Covers;
    AltAt(l, s, o, a, i);
    InterruptedMerge(l, s, e, t, i);
    InterruptedLoses(l, s, e, t, i);
    BaseIs(l, s, i);
    FillingBytes(l, t, o, a);
    MergeNamed(l, a.w, a.m, i);
    MergeNamed(l, s.w, s.m, i);
    MergeNamed(l, a.w, Filling(l, t, o, a).m, i);
    if InBlock(o, i) { SameBlock(l, a.w, o, i); }
    BothLoses(S(l, a.m, i), L(l, a.m, i));
  }

  lemma MergeNamed(l: Placed, w: Option<Bitmap>, m: Image, i: nat)
    requires IsImage(m) && i < l.live.len
    ensures M(l, w, m, i) == if Written(l, w, i) then S(l, m, i) else Both(S(l, m, i), L(l, m, i))
  {
    hide Written, S, L;
  }

  lemma BothLoses(a: byte, b: byte)
    ensures Covers(a, a) && Covers(a, Both(a, b)) && Both(Both(a, b), b) == Both(a, b)
  {}

  lemma InterruptedLoses(l: Placed, s: Session, e: Event, t: Session, i: nat)
    requires e.Interrupted? && Step(l, s, e, t) && i < l.live.len
    ensures IsImage(s.m) && IsImage(t.m) && Covers(S(l, s.m, i), S(l, t.m, i))
  {
    hide S, L, Covers;
  }

  /** A commit that fails, there as here. */
  lemma AltInterrupted(l: Placed, s: Session, e: Event, t: Session, o: u32, a: Session)
    requires e.Interrupted? && e.before == e.after && Step(l, s, e, t) && AltOf(l, s, o, a) && IsBlock(l, o)
    ensures IsImage(t.m) && IsImage(a.m)
    ensures Step(l, a, e, Filling(l, t, o, a)) && AltOf(l, t, o, Filling(l, t, o, a))
  {
    hide Filling, S, L, M, Written, AltOf, Base, Step, Both, Covers, Elsewhere, Merged;
    AltAt(l, s, o, a, 0);
    InterruptedParts(l, s, e, t);
    var b := Filling(l, t, o, a);
    FillingBytes(l, t, o, a);
    FillingIsAlt(l, t, o, a);
    AltIsElsewhere(l, s, o, a, t, b);
    AltMarks(l, s, o, a);
    forall i: nat | i < l.live.len
      ensures M(l, a.w, b.m, i) == M(l, a.w, a.m, i)
      ensures Covers(S(l, a.m, i), S(l, b.m, i))
      ensures Live(l, t.m) == Live(l, s.m) ==> L(l, b.m, i) == L(l, a.m, i)
      ensures Staging(l, t.m) == Merged(l, s.w, s.m) ==> S(l, b.m, i) == M(l, a.w, a.m, i)
    {
      FillingByte(l, s, e, t, o, a, i);
      WholeAt(l, s, t, i);
    }
    SafeFromBytes(l, a, b, Live(l, t.m) == Live(l, s.m));
    UntracedInterruption(l, a, e, b);
  }

  lemma WholeAt(l: Placed, s: Session, t: Session, i: nat)
    requires IsImage(s.m) && IsImage(t.m) && i < l.live.len
    ensures Live(l, t.m) == Live(l, s.m) ==> L(l, t.m, i) == L(l, s.m, i)
    ensures Staging(l, t.m) == Merged(l, s.w, s.m) ==> S(l, t.m, i) == M(l, s.w, s.m, i)
  {
    assert Live(l, t.m)[i] == L(l, t.m, i) && Live(l, s.m)[i] == L(l, s.m, i);
    assert Staging(l, t.m)[i] == S(l, t.m, i) && Merged(l, s.w, s.m)[i] == M(l, s.w, s.m, i);
    hide Live, Staging, Merged, S, L, M;
  }

  lemma InterruptedParts(l: Placed, s: Session, e: Event, t: Session)
    requires e.Interrupted? && Step(l, s, e, t)
    ensures IsImage(s.m) && IsImage(t.m) && s.w.Some? && t.w == s.w && Elsewhere(l, s.m, t.m)
    ensures Live(l, t.m) == Live(l, s.m) || Staging(l, t.m) == Merged(l, s.w, s.m)
  {
    hide Live, Staging, Merged, Elsewhere;
  }

  /** The safety of an image, byte by byte. */
  lemma SafeFromBytes(l: Placed, a: Session, b: Session, kept: bool)
    requires IsImage(a.m) && IsImage(b.m) && Elsewhere(l, a.m, b.m)
    requires forall i: nat :: i < l.live.len ==>
               && M(l, a.w, b.m, i) == M(l, a.w, a.m, i)
               && Covers(S(l, a.m, i), S(l, b.m, i))
               && (if kept then L(l, b.m, i) == L(l, a.m, i) else S(l, b.m, i) == M(l, a.w, a.m, i))
    ensures CommitSafe(l, a.w, a.m, b.m)
  {
    hide S, L, M, Elsewhere, Covers;
    assert Merged(l, a.w, b.m) == Merged(l, a.w, a.m);
    if kept { assert Live(l, b.m) == Live(l, a.m); } else { assert Staging(l, b.m) == Merged(l, a.w, a.m); }
    if Staging(l, a.m) == Merged(l, a.w, a.m) {
      forall i: nat | i < l.live.len ensures S(l, b.m, i) == M(l, a.w, a.m, i) {
        assert Staging(l, a.m)[i] == Merged(l, a.w, a.m)[i];
        MergedStays(l, a, b, i);
      }
      assert Staging(l, b.m) == Merged(l, a.w, a.m);
    }
  }

  lemma MergedStays(l: Placed, a: Session, b: Session, i: nat)
    requires IsImage(a.m) && IsImage(b.m) && i < l.live.len && S(l, a.m, i) == M(l, a.w, a.m, i)
    requires M(l, a.w, b.m, i) == M(l, a.w, a.m, i) && Covers(S(l, a.m, i), S(l, b.m, i))
    ensures S(l, b.m, i) == M(l, a.w, a.m, i)
  {
    hide Written, S, L;
    if !Written(l, a.w, i) { BareStays(S(l, a.m, i), S(l, b.m, i), L(l, b.m, i)); }
  }

  lemma BareStays(s: byte, x: byte, y: byte)
    requires s & x == x && x & y == s
    ensures x == s
  {}

  lemma UntracedInterruption(l: Placed, a: Session, e: Event, b: Session)
    requires e.Interrupted? && e.before == e.after && a.w.Some? && b.w == a.w && IsImage(a.m) && IsImage(b.m)
    requires CommitSafe(l, a.w, a.m, b.m)
    ensures Step(l, a, e, b)
  {
    hide CommitSafe;
  }

  // ---------------------------------------------------------------- One step of both

  /** What was recorded of an operation is what the host saw of it: no image in between. */
  predicate Untraced(e: Event) { e.Committed? || e.Interrupted? ==> e.before == e.after }

  /** The block on the other device has lost bits at most. */
  ghost predicate Under(l: Placed, s: Session, o: u32, a: Session)
    requires IsImage(s.m) && IsImage(a.m)
  {
    forall k: nat :: k < l.live.len && InBlock(o, k) ==> Covers(S(l, s.m, k), S(l, a.m, k))
  }

  lemma UnderItself(l: Placed, o: u32, a: Session, b: Session)
    requires IsImage(a.m) && IsImage(b.m)
    requires forall k: nat :: k < l.live.len && InBlock(o, k) ==> S(l, b.m, k) == S(l, a.m, k)
    ensures Under(l, a, o, b)
  {
    forall k: nat | k < l.live.len && InBlock(o, k) ensures Covers(S(l, a.m, k), S(l, b.m, k)) {
      CoversItself(S(l, a.m, k));
    }
  }

  /** A refusal there as here: the block there lacks the bits it lacks here. */
  lemma AltRefused(l: Placed, s: Session, e: Event, t: Session, o: u32, a: Session)
    requires e.Refused? && Step(l, s, e, t) && AltOf(l, s, o, a) && IsBlock(l, o)
    requires IsImage(s.m) && IsImage(a.m) && (Written(l, s.w, o) ==> Under(l, s, o, a))
    ensures t == s && Step(l, a, e, a)
  {
    hide AltOf, S, L, Base, Written, Covers;
    AltAt(l, s, o, a, 0);
    if WriteRefused(l, s, e.offset, e.data, t) {
      var i: nat :| i < l.live.len && InBlock(e.offset, i) && !Covers(S(l, s.m, i), e.data[i - e.offset]);
      AltAt(l, s, o, a, i);
      AltAt(l, s, o, a, e.offset);
      RefusedIsOpen(l, s, e.offset);
      BaseIs(l, s, i);
      if e.offset == o {
        if Covers(S(l, a.m, i), e.data[i - o]) { CoversJoins(S(l, s.m, i), S(l, a.m, i), e.data[i - o]); }
      } else {
        OtherBlock(l, o, e.offset, i);
      }
    }
  }

  lemma RefusedIsOpen(l: Placed, s: Session, i: nat)
    requires i < l.live.len && Written(l, s.w, i)
    ensures s.w.Some?
  {}

  /** Anything but a commit that passes, or a write of the block accepted, goes there as here;
      the block there stays, or is filled. */
  lemma AltSteps(l: Placed, s: Session, e: Event, t: Session, o: u32, a: Session) returns (b: Session)
    requires Step(l, s, e, t) && Untraced(e) && AltOf(l, s, o, a) && IsBlock(l, o)
    requires !e.Committed? && !(e.Accepted? && e.offset == o)
    requires IsImage(s.m) && IsImage(a.m) && (Written(l, s.w, o) ==> Under(l, s, o, a))
    ensures Step(l, a, e, b) && AltOf(l, t, o, b)
    ensures IsImage(b.m) && Under(l, a, o, b)
  {
    hide AltOf, S, L, Written, Covers, WriteAccepted, WriteFailed, WriteRefused, CommitEffect, Kept, Filling, Under,
         Permitted;
    match e
    case Accepted(offset, data) =>
      AltAccepted(l, s, offset, data, t, o, a);
      b := Kept(l, t, o, a);
      KeptBytes(l, t, o, a);
      UnderItself(l, o, a, b);
    case Refused(_, _) =>
      AltRefused(l, s, e, t, o, a);
      b := a;
      UnderItself(l, o, a, b);
    case Failed(offset, data) =>
      FailedOffset(l, s, offset, data, t);
      if offset == o || t.w.None? || !Permitted(l, s, offset, data) {
        AltStays(l, s, offset, data, t, o, a);
        b := a;
      } else {
        AltFailed(l, s, offset, data, t, o, a);
        b := Kept(l, t, o, a);
        KeptBytes(l, t, o, a);
      }
      UnderItself(l, o, a, b);
    case Interrupted(_, _) =>
      AltInterrupted(l, s, e, t, o, a);
      b := Filling(l, t, o, a);
      FillingUnder(l, s, e, t, o, a);
  }

  lemma FailedOffset(l: Placed, s: Session, offset: u32, data: HostBlock, t: Session)
    requires WriteFailed(l, s, offset, data, t)
    ensures IsBlock(l, offset) && IsImage(t.m)
  {}

  lemma FillingUnder(l: Placed, s: Session, e: Event, t: Session, o: u32, a: Session)
    requires e.Interrupted? && Step(l, s, e, t) && AltOf(l, s, o, a) && IsBlock(l, o)
    ensures IsImage(t.m) && IsImage(a.m) && Under(l, a, o, Filling(l, t, o, a))
  {
    hide Filling, S, L, M, Written, AltOf, Step, Covers;
    FillingByte(l, s, e, t, o, a, 0);
    forall k: nat | k < l.live.len && InBlock(o, k) ensures Covers(S(l, a.m, k), S(l, Filling(l, t, o, a).m, k)) {
      FillingByte(l, s, e, t, o, a, k);
    }
  }

  // ---------------------------------------------------------------- The run that goes wrong

  lemma {:induction false} NotedAllEnds(l: Placed, g: Ledger, events: seq<Event>, e: Event)
    requires Fits(l, g)
    ensures NotedAll(l, g, events + [e]) == Noted(l, NotedAll(l, g, events), e)
    ensures AllSure(l, g, events + [e]) <==> AllSure(l, g, events) && Sure(l, NotedAll(l, g, events), e)
    decreases |events|
  {
    hide Noted, Sure;
    if events == [] {
      assert [e][1..] == [];
    } else {
      assert (events + [e])[1..] == events[1..] + [e];
      NotedAllEnds(l, Noted(l, g, events[0]), events[1..], e);
    }
  }

  /** A run of calls from a clean session, each as sure as the ledger can tell, of which only the
      outcomes are recorded. */
  ghost predicate SureRun(l: Placed, sessions: seq<Session>, events: seq<Event>) {
    && Run(l, sessions, events)
    && IsImage(sessions[0].m) && Clean(l, sessions[0].w, sessions[0].m)
    && (forall k :: 0 <= k < |events| ==> Untraced(events[k]))
    && AllSure(l, Known(l, sessions[0]), events)
  }

  /** What the host knows after it. */
  function Book(l: Placed, first: Session, events: seq<Event>): (g: Ledger)
    requires IsImage(first.m)
    ensures Fits(l, g)
  {
    NotedAll(l, Known(l, first), events)
  }

  lemma SureLength(l: Placed, sessions: seq<Session>, events: seq<Event>)
    requires SureRun(l, sessions, events)
    ensures |sessions| == |events| + 1
  {
    hide Step, AllSure, Clean, Untraced;
  }

  lemma SureRunStands(l: Placed, sessions: seq<Session>, events: seq<Event>)
    requires SureRun(l, sessions, events)
    ensures IsImage(sessions[|events|].m) && IsImage(sessions[0].m)
    ensures Stands(l, sessions[|events|], Book(l, sessions[0], events))
  {
    hide Step, Noted, Sure, Clean, Known;
    KnownStands(l, sessions[0]);
    FailingRunIsFlatArray(l, sessions, events, Known(l, sessions[0]));
    hide ByteStands;
  }

  lemma SureRunDrops(l: Placed, sessions: seq<Session>, events: seq<Event>)
    requires SureRun(l, sessions, events) && events != []
    ensures var n := |events| - 1;
            && SureRun(l, sessions[..n + 1], events[..n])
            && Step(l, sessions[n], events[n], sessions[n + 1]) && Untraced(events[n])
            && IsImage(sessions[0].m)
            && Book(l, sessions[0], events) == Noted(l, Book(l, sessions[0], events[..n]), events[n])
            && Sure(l, Book(l, sessions[0], events[..n]), events[n])
  {
    hide Step, Noted, Sure, Clean, Known, Untraced;
    var n := |events| - 1;
    assert events == events[..n] + [events[n]];
    NotedAllEnds(l, Known(l, sessions[0]), events[..n], events[n]);
    assert Step(l, sessions[n], events[n], sessions[n + 1]);
    forall k | 0 <= k < n ensures Step(l, sessions[..n + 1][k], events[..n][k], sessions[..n + 1][k + 1]) {
      assert Step(l, sessions[k], events[k], sessions[k + 1]);
    }
  }

  lemma RunGrows(l: Placed, rs: seq<Session>, events: seq<Event>, e: Event, t: Session)
    requires Run(l, rs, events) && Step(l, rs[|events|], e, t)
    ensures Run(l, rs + [t], events + [e])
  {
    hide Step;
    var longer, all := rs + [t], events + [e];
    forall k | 0 <= k < |all| ensures Step(l, longer[k], all[k], longer[k + 1]) {
      if k < |events| { assert Step(l, rs[k], events[k], rs[k + 1]); }
    }
  }

  /** A written block keeps its mark and only loses bits until it is written again or a commit
      passes. */
  lemma MarkedOnlyLoses(l: Placed, s: Session, e: Event, t: Session, k: nat)
    requires Step(l, s, e, t) && k < l.live.len && IsImage(s.m) && IsImage(t.m) && Written(l, s.w, k)
    requires !e.Committed? && !(e.Accepted? && InBlock(e.offset, k))
    ensures Covers(S(l, s.m, k), S(l, t.m, k))
  {
    hide S, L, Base, Written, Covers, WriteAccepted, WriteFailed, WriteRefused, CommitEffect;
    RefusedIsOpen(l, s, k);
    BaseIs(l, s, k);
    CoversItself(S(l, s.m, k));
    match e
    case Accepted(offset, data) => AcceptedByte(l, s, offset, data, t, k);
    case Refused(_, _) => RefusedChangesNothing(l, s, e, t);
    case Failed(offset, data) =>
      FailedByte(l, s, offset, data, t, k);
      if InBlock(offset, k) { TornCovers(S(l, t.m, k), Base(l, s, k), data[k - offset]); }
    case Interrupted(_, _) => InterruptedMerge(l, s, e, t, k);
  }

  lemma RefusedChangesNothing(l: Placed, s: Session, e: Event, t: Session)
    requires e.Refused? && Step(l, s, e, t)
    ensures t == s
  {}

  /** Where a floor does not cover `x` and one operation before it did, that operation cleared
      the bit: a failed write that may have passed its check, or a failed commit. */
  lemma FloorFell(l: Placed, g: Ledger, e: Event, o: u32, i: nat, x: byte)
    requires Fits(l, g) && IsBlock(l, o) && i < l.live.len && InBlock(o, i) && (e.Accepted? ==> IsBlock(l, e.offset))
    requires (e.Failed? ==> IsBlock(l, e.offset))
    requires Covers(g.floor[i], x) && !Covers(Noted(l, g, e).floor[i], x) && !(e.Accepted? && e.offset == o)
    ensures if e.Failed? then e.offset == o && MayPass(l, g, o, e.data) && !Covers(e.data[i - o], x)
            else e.Interrupted? && !g.marked[i] && !Covers(g.bytes[i], x)
  {
    hide Noted, Covers, Both, MayPass;
    NotedAt(l, g, e, i);
    SmallCovers(x);
    if e.Accepted? && InBlock(e.offset, i) { OtherBlock(l, o, e.offset, i); }
    if e.Failed? && InBlock(e.offset, i) {
      SameOffset(l, o, e.offset, i);
      if Covers(e.data[i - o], x) { CoversMeet(g.floor[i], e.data[i - o], x); }
    }
    if e.Interrupted? && Covers(g.bytes[i], x) { CoversMeet(g.floor[i], g.bytes[i], x); }
  }

  lemma SmallCovers(x: byte)
    ensures Covers(ERASED_BYTE, x) && Covers(x, x)
  {}

  lemma CoversMeet(a: byte, b: byte, x: byte)
    requires Covers(a, x) && Covers(b, x)
    ensures Covers(Both(a, b), x)
  {}

  lemma SameOffset(l: Placed, o: u32, offset: u32, i: nat)
    requires IsBlock(l, o) && IsBlock(l, offset) && InBlock(o, i) && InBlock(offset, i)
    ensures offset == o
  {}

  lemma BadSend(l: Placed, s: Session, g: Ledger, data: HostBlock, t: Session, o: u32, i: nat, x: byte)
    requires Stands(l, s, g) && WriteFailed(l, s, o, data, t) && MayPass(l, g, o, data) && IsBlock(l, o)
    requires i < l.live.len && InBlock(o, i) && !Covers(data[i - o], x)
    requires IsImage(s.m)
    requires g.marked[i] ==> forall k: nat :: k < l.live.len && InBlock(o, k) ==> S(l, s.m, k) == g.bytes[k]
    ensures var b := Stopped(l, s, o, data);
            && WriteFailed(l, s, o, data, b) && AltOf(l, t, o, b) && !Covers(S(l, b.m, i), x)
            && (g.marked[i] ==> Under(l, s, o, b))
  {
    hide Stands, WriteFailed, AltOf, S, L, Base, Written, Covers, Stopped, MayPass, Both, Elsewhere;
    var b := Stopped(l, s, o, data);
    StandsAt(l, s, g, i);
    SameBlock(l, s.w, o, i);
    if Written(l, s.w, o) {
      forall k: nat | k < l.live.len && InBlock(o, k) ensures Covers(Base(l, s, k), data[k - o]) {
        StandsAt(l, s, g, k);
        SameBlock(l, s.w, o, k);
        BaseIs(l, s, k);
        RefusedIsOpen(l, s, k);
        MayPassAt(l, g, o, data, k);
      }
    }
    StoppedIsFailure(l, s, o, data);
    StoppedIsAlt(l, s, o, data, t);
    StoppedByte(l, s, o, data, i);
    DataCovers(Base(l, s, i), data[i - o]);
    if Covers(S(l, b.m, i), x) { CoversJoins(data[i - o], S(l, b.m, i), x); }
    if g.marked[i] {
      forall k: nat | k < l.live.len && InBlock(o, k) ensures Covers(S(l, s.m, k), S(l, b.m, k)) {
        SameBlock(l, s.w, o, k);
        BaseIs(l, s, k);
        RefusedIsOpen(l, s, k);
        StoppedByte(l, s, o, data, k);
        DataCovers(Base(l, s, k), data[k - o]);
      }
    }
  }

  lemma MayPassAt(l: Placed, g: Ledger, o: u32, data: HostBlock, k: nat)
    requires Fits(l, g) && MayPass(l, g, o, data) && k < l.live.len && InBlock(o, k) && g.marked[k]
    ensures Covers(g.bytes[k], data[k - o])
  {
    hide Covers;
  }

  lemma DataCovers(a: byte, d: byte)
    ensures Covers(d, Both(a, d)) && Covers(a, Both(a, d))
  {}

  lemma StoppedByte(l: Placed, s: Session, o: u32, data: HostBlock, k: nat)
    requires IsImage(s.m) && IsBlock(l, o) && k < l.live.len
    ensures var m := Stopped(l, s, o, data).m;
            && S(l, m, k) == (if InBlock(o, k) then Both(Base(l, s, k), data[k - o]) else Base(l, s, k))
            && L(l, m, k) == L(l, s.m, k)
  {
    hide Programmed, Base, S;
    ProgrammedBytes(l, s, o, data);
    assert Live(l, Stopped(l, s, o, data).m)[k] == Live(l, s.m)[k];
  }

  lemma StoppedIsAlt(l: Placed, s: Session, o: u32, data: HostBlock, t: Session)
    requires IsImage(s.m) && IsBlock(l, o) && WriteFailed(l, s, o, data, t)
    ensures AltOf(l, t, o, Stopped(l, s, o, data))
  {
    hide WriteFailed, S, L, Base, Written, Stopped, Both, Elsewhere;
    var b := Stopped(l, s, o, data);
    FailedMarks(l, s, o, data, t);
    forall i: nat | i < l.live.len && !InBlock(o, i)
      ensures S(l, b.m, i) == Base(l, t, i) && L(l, b.m, i) == L(l, t.m, i)
    {
      StoppedByte(l, s, o, data, i);
      FailedByte(l, s, o, data, t, i);
      BaseIs(l, s, i);
      BaseIs(l, t, i);
    }
    StoppedElsewhere(l, s, o, data, t);
  }

  lemma StoppedElsewhere(l: Placed, s: Session, o: u32, data: HostBlock, t: Session)
    requires IsImage(s.m) && IsImage(t.m) && IsBlock(l, o) && Elsewhere(l, s.m, t.m) && Marks(t.w) == Marks(s.w)
    ensures var b := Stopped(l, s, o, data); b.w == Some(Marks(t.w)) && Elsewhere(l, t.m, b.m)
  {
    hide Programmed;
    ProgrammedBytes(l, s, o, data);
    hide S, L, Base, Live;
  }

  lemma BadFill(l: Placed, s: Session, g: Ledger, e: Event, t: Session, o: u32, i: nat, x: byte)
    requires Stands(l, s, g) && e.Interrupted? && Untraced(e) && Step(l, s, e, t) && IsBlock(l, o)
    requires i < l.live.len && InBlock(o, i) && !g.marked[i] && !Covers(g.bytes[i], x)
    ensures IsImage(s.m) && IsImage(t.m)
    ensures var b := Filling(l, t, o, s);
            Step(l, s, e, b) && AltOf(l, t, o, b) && !Covers(S(l, b.m, i), x)
  {
    hide Stands, Step, AltOf, S, L, Base, Written, Covers, Both, Filling;
    StandsAt(l, s, g, i);
    InterruptedParts(l, s, e, t);
    AltOfItself(l, s, o);
    AltInterrupted(l, s, e, t, o, s);
    FillingBytes(l, t, o, s);
    SameBlock(l, s.w, o, i);
    BaseIs(l, s, i);
    AgreesNamed(g.marked[i], g.cut, s.w.Some?, g.bytes[i], g.floor[i], S(l, s.m, i), Base(l, s, i), L(l, s.m, i));
    if Covers(Both(S(l, s.m, i), L(l, s.m, i)), x) { CoversJoins(g.bytes[i], Both(S(l, s.m, i), L(l, s.m, i)), x); }
  }

  lemma AltOfItself(l: Placed, s: Session, o: u32)
    requires IsImage(s.m) && s.w.Some?
    ensures AltOf(l, s, o, s)
  {}

  /** If the ledger's floor of a byte does not cover `x`, the same calls with the same outcomes can
      have left staging without a bit of `x` there, on a device that is otherwise as it is. For a
      written block, that is said only where no bit has been lost on this device. */
  lemma {:induction false} Exposed(l: Placed, sessions: seq<Session>, events: seq<Event>, o: u32, i: nat, x: byte)
    returns (rs: seq<Session>)
    requires SureRun(l, sessions, events) && IsBlock(l, o) && i < l.live.len && InBlock(o, i)
    requires IsImage(sessions[0].m) && IsImage(sessions[|events|].m)
    requires var g := Book(l, sessions[0], events);
             && !Covers(g.floor[i], x)
             && (g.marked[i] ==> x == g.bytes[i] && Intact(l, sessions[|events|], o, g))
    ensures Run(l, rs, events) && rs[0] == sessions[0] && AltOf(l, sessions[|events|], o, rs[|events|])
    ensures IsImage(rs[|events|].m) && !Covers(S(l, rs[|events|].m, i), x)
    ensures Book(l, sessions[0], events).marked[i] ==> Under(l, sessions[|events|], o, rs[|events|])
    decreases |events|
  {
    hide Step, Stands, AltOf, S, L, Base, Written, Covers, Both, Filling, Stopped, Noted, Sure, Known, MayPass, Under,
         Untraced, Intact, SureRun, Book;
    SureLength(l, sessions, events);
    if events == [] {
      FloorAtFirst(l, sessions, events, i, x);
      assert false;
    } else {
      var n := |events| - 1;
      var s, e, t := sessions[n], events[n], sessions[n + 1];
      var earlier := events[..n];
      SureRunDrops(l, sessions, events);
      SureRunStands(l, sessions[..n + 1], earlier);
      var g := Book(l, sessions[0], earlier);
      Backwards(l, s, g, e, t, o, i, x);
      if !Covers(g.floor[i], x) {
        var rest := Exposed(l, sessions[..n + 1], earlier, o, i, x);
        var b := ExposedStep(l, s, g, e, t, o, i, x, rest[n]);
        RunGrows(l, rest, earlier, e, b);
        rs := rest + [b];
      } else {
        var b := FirstLoss(l, s, g, e, t, o, i, x);
        RunOf(l, sessions, events);
        RunGrows(l, sessions[..n + 1], earlier, e, b);
        rs := sessions[..n + 1] + [b];
      }
      assert events == earlier + [e];
    }
  }

  /** No bit of the block has been lost. */
  predicate Intact(l: Placed, s: Session, o: u32, g: Ledger)
    requires IsImage(s.m) && Fits(l, g)
  {
    forall k: nat :: k < l.live.len && InBlock(o, k) ==> S(l, s.m, k) == g.bytes[k]
  }

  lemma RunOf(l: Placed, sessions: seq<Session>, events: seq<Event>)
    requires SureRun(l, sessions, events) && events != []
    ensures Run(l, sessions[..|events|], events[..|events| - 1])
  {
    hide Step, AllSure, Clean, Known, Untraced;
    SureRunDrops(l, sessions, events);
  }

  lemma FloorAtFirst(l: Placed, sessions: seq<Session>, events: seq<Event>, i: nat, x: byte)
    requires SureRun(l, sessions, events) && events == [] && i < l.live.len && IsImage(sessions[0].m)
    ensures var g := Book(l, sessions[0], events); (g.marked[i] ==> x == g.bytes[i]) ==> Covers(g.floor[i], x)
  {
    hide Covers, Overlay, Clean, Untraced, Step;
    KnownByte(l, sessions[0], i);
    SmallCovers(x);
  }

  /** One operation back: the block had its mark already, and if nothing is lost now nothing was. */
  lemma Backwards(l: Placed, s: Session, g: Ledger, e: Event, t: Session, o: u32, i: nat, x: byte)
    requires Stands(l, s, g) && Step(l, s, e, t) && Sure(l, g, e) && IsBlock(l, o) && i < l.live.len && InBlock(o, i)
    requires IsImage(s.m) && IsImage(t.m)
    requires var h := Noted(l, g, e);
             !Covers(h.floor[i], x) && (h.marked[i] ==> x == h.bytes[i] && Intact(l, t, o, h))
    ensures !e.Committed? && !(e.Accepted? && e.offset == o) && (e.Accepted? || e.Failed? ==> IsBlock(l, e.offset))
    ensures g.marked[i] == Noted(l, g, e).marked[i] == Written(l, s.w, o)
    ensures g.marked[i] ==> x == g.bytes[i] && Intact(l, s, o, g) && Intact(l, t, o, g)
  {
    hide Stands, Step, S, L, Base, Written, Covers, Both, Noted, Sure;
    StandsAt(l, s, g, i);
    NotedAt(l, g, e, i);
    SmallCovers(x);
    SameBlock(l, s.w, o, i);
    StepBlock(l, s, e, t);
    if g.marked[i] {
      forall k: nat | k < l.live.len && InBlock(o, k)
        ensures S(l, s.m, k) == g.bytes[k] && S(l, t.m, k) == g.bytes[k]
      {
        NotedAt(l, g, e, k);
        StandsAt(l, s, g, k);
        SameBlock(l, s.w, o, k);
        if e.Accepted? && InBlock(e.offset, k) { SameOffset(l, o, e.offset, k); }
        MarkedOnlyLoses(l, s, e, t, k);
        CoversBack(g.bytes[k], S(l, s.m, k), S(l, t.m, k));
      }
    }
  }

  lemma StepBlock(l: Placed, s: Session, e: Event, t: Session)
    requires Step(l, s, e, t)
    ensures e.Accepted? || e.Failed? ==> IsBlock(l, e.offset)
  {
    hide CommitEffect;
  }

  lemma CoversBack(a: byte, b: byte, c: byte)
    ensures Covers(a, b) && Covers(b, c) && c == a ==> b == a
  {}

  lemma ExposedStep(l: Placed, s: Session, g: Ledger, e: Event, t: Session, o: u32, i: nat, x: byte, a: Session)
    returns (b: Session)
    requires Stands(l, s, g) && Step(l, s, e, t) && Untraced(e) && IsBlock(l, o) && i < l.live.len && InBlock(o, i)
    requires !e.Committed? && !(e.Accepted? && e.offset == o)
    requires IsImage(s.m) && IsImage(t.m) && IsImage(a.m) && AltOf(l, s, o, a) && !Covers(S(l, a.m, i), x)
    requires g.marked[i] == Written(l, s.w, o)
    requires g.marked[i] ==> Under(l, s, o, a) && Intact(l, s, o, g) && Intact(l, t, o, g)
    ensures Step(l, a, e, b) && AltOf(l, t, o, b) && IsImage(b.m) && !Covers(S(l, b.m, i), x)
    ensures g.marked[i] ==> Under(l, t, o, b)
  {
    hide Stands, Step, AltOf, S, L, Written, Covers, Untraced;
    StandsAt(l, s, g, i);
    b := AltSteps(l, s, e, t, o, a);
    if Covers(S(l, b.m, i), x) { CoversJoins(S(l, a.m, i), S(l, b.m, i), x); }
    if g.marked[i] {
      forall k: nat | k < l.live.len && InBlock(o, k) ensures Covers(S(l, t.m, k), S(l, b.m, k)) {
        CoversJoins(S(l, s.m, k), S(l, a.m, k), S(l, b.m, k));
      }
    }
  }

  lemma FirstLoss(l: Placed, s: Session, g: Ledger, e: Event, t: Session, o: u32, i: nat, x: byte)
    returns (b: Session)
    requires Stands(l, s, g) && Step(l, s, e, t) && Untraced(e) && IsBlock(l, o) && i < l.live.len && InBlock(o, i)
    requires !(e.Accepted? && e.offset == o) && (e.Accepted? || e.Failed? ==> IsBlock(l, e.offset))
    requires IsImage(s.m) && IsImage(t.m) && Covers(g.floor[i], x) && !Covers(Noted(l, g, e).floor[i], x)
    requires g.marked[i] ==> Intact(l, s, o, g) && Intact(l, t, o, g)
    ensures Step(l, s, e, b) && AltOf(l, t, o, b) && IsImage(b.m) && !Covers(S(l, b.m, i), x)
    ensures g.marked[i] ==> Under(l, t, o, b)
  {
    hide Stands, AltOf, S, L, Written, Covers, Untraced, Stopped, Filling, WriteFailed, WriteAccepted, WriteRefused,
         CommitEffect, Noted, MayPass;
    StandsAt(l, s, g, i);
    FloorFell(l, g, e, o, i, x);
    if e.Failed? {
      BadSend(l, s, g, e.data, t, o, i, x);
      b := Stopped(l, s, o, e.data);
    } else {
      BadFill(l, s, g, e, t, o, i, x);
      b := Filling(l, t, o, s);
    }
  }

  // ---------------------------------------------------------------- The guard

  /** The host has what it wrote: after a write, of that block; after a commit, of all. */
  predicate Right(l: Placed, t: Session, g: Ledger, e: Event)
    requires Fits(l, g)
  {
    && IsImage(t.m)
    && forall i: nat :: i < l.live.len && (e.Accepted? ==> InBlock(e.offset, i)) ==>
         Overlay(l, t.w, t.m)[i] == Noted(l, g, e).bytes[i]
  }

  lemma SureIsRight(l: Placed, s: Session, g: Ledger, e: Event, t: Session)
    requires Stands(l, s, g) && Step(l, s, e, t) && Sure(l, g, e) && (e.Accepted? || e.Committed?)
    ensures Right(l, t, g, e)
  {
    hide Stands, Step, Sure, Noted, Overlay, Covers;
    StandsAt(l, s, g, 0);
    var h := Noted(l, g, e);
    StepStands(l, s, g, e, t);
    StandsAt(l, t, h, 0);
    forall i: nat | i < l.live.len && (e.Accepted? ==> InBlock(e.offset, i))
      ensures Overlay(l, t.w, t.m)[i] == h.bytes[i]
    {
      NotedAt(l, g, e, i);
      SmallCovers(h.bytes[i]);
      ReadableByte(l, t, h, i);
    }
  }

  /** The block a byte is in. */
  function BlockAt(l: Placed, i: nat): (o: u32)
    requires i < l.live.len
    ensures IsBlock(l, o) && InBlock(o, i)
  {
    i / BLOCK_BYTES * BLOCK_BYTES
  }

  /** An accepted write the guard does not hold of can have gone wrong. */
  lemma UnsureWriteIsWrong(l: Placed, sessions: seq<Session>, events: seq<Event>, e: Event)
    returns (rs: seq<Session>, t: Session)
    requires SureRun(l, sessions, events) && e.Accepted? && IsBlock(l, e.offset) && IsImage(sessions[0].m)
    requires !Sure(l, Book(l, sessions[0], events), e)
    ensures Run(l, rs, events) && rs[0] == sessions[0] && Step(l, rs[|events|], e, t)
    ensures !Right(l, t, Book(l, sessions[0], events), e)
  {
    hide SureRun, Book, AltOf, S, L, Covers, Written, WriteAccepted, Passed, Right;
    SureLength(l, sessions, events);
    var g := Book(l, sessions[0], events);
    var o, n := e.offset, |events|;
    var i: nat :| i < l.live.len && InBlock(o, i) && !g.marked[i] && !Covers(g.floor[i], e.data[i - o]);
    SureRunStands(l, sessions, events);
    rs := Exposed(l, sessions, events, o, i, e.data[i - o]);
    var a := rs[n];
    UnmarkedThere(l, sessions[n], g, o, i, a);
    t := Passed(l, a, o, e.data);
    PassedIsAcceptance(l, a, o, e.data);
    AcceptedWrong(l, a, g, e, t, i);
  }

  lemma UnmarkedThere(l: Placed, s: Session, g: Ledger, o: u32, i: nat, a: Session)
    requires Stands(l, s, g) && AltOf(l, s, o, a) && IsBlock(l, o) && i < l.live.len && InBlock(o, i)
    ensures IsImage(a.m) && a.w.Some? && Written(l, a.w, o) == Written(l, a.w, i) == g.marked[i]
  {
    hide Stands, AltOf, S, L, Written;
    StandsAt(l, s, g, i);
    AltAt(l, s, o, a, i);
    SameBlock(l, a.w, o, i);
  }

  lemma AcceptedWrong(l: Placed, a: Session, g: Ledger, e: Event, t: Session, i: nat)
    requires Fits(l, g) && e.Accepted? && WriteAccepted(l, a, e.offset, e.data, t) && IsImage(a.m) && a.w.Some?
    requires i < l.live.len && InBlock(e.offset, i) && !Covers(S(l, a.m, i), e.data[i - e.offset])
    ensures !Right(l, t, g, e)
  {
    hide WriteAccepted, Written, S, Overlay, Noted, Covers, Both;
    AcceptedNamed(l, a, e.offset, e.data, t, i);
    BaseIs(l, a, i);
    NotedAt(l, g, e, i);
    CoversIsBoth(S(l, a.m, i), e.data[i - e.offset]);
  }

  /** A commit that the guard does not hold of can have gone wrong. */
  lemma UnsureCommitIsWrong(l: Placed, sessions: seq<Session>, events: seq<Event>, e: Event)
    returns (rs: seq<Session>, t: Session)
    requires SureRun(l, sessions, events) && e.Committed? && Untraced(e) && IsImage(sessions[0].m)
    requires !Sure(l, Book(l, sessions[0], events), e)
    ensures Run(l, rs, events) && rs[0] == sessions[0] && Step(l, rs[|events|], e, t)
    ensures !Right(l, t, Book(l, sessions[0], events), e)
  {
    hide SureRun, Book, AltOf, S, L, Covers, Written, Settled, Right, Stands, CommitEffect, Intact;
    SureLength(l, sessions, events);
    var g := Book(l, sessions[0], events);
    var n := |events|;
    var i: nat :| i < l.live.len && !Covers(g.floor[i], g.bytes[i]);
    var o := BlockAt(l, i);
    SureRunStands(l, sessions, events);
    if g.marked[i] && !Intact(l, sessions[n], o, g) {
      rs := sessions;
      JustRun(l, sessions, events);
      t := Settled(l, sessions[n]);
      SpoiledHere(l, sessions[n], g, e, o, i);
    } else {
      rs := Exposed(l, sessions, events, o, i, g.bytes[i]);
      UnmarkedThere(l, sessions[n], g, o, i, rs[n]);
      t := Settled(l, rs[n]);
      SettledTraced(l, rs[n], e);
      CommittedWrong(l, rs[n], g, e, i);
    }
  }

  lemma JustRun(l: Placed, sessions: seq<Session>, events: seq<Event>)
    requires SureRun(l, sessions, events)
    ensures Run(l, sessions, events)
  {
    hide Run, AllSure, Clean;
  }

  lemma SettledTraced(l: Placed, s: Session, e: Event)
    requires IsImage(s.m) && s.w.Some? && e.Committed? && Untraced(e)
    ensures Step(l, s, e, Settled(l, s))
  {
    hide Settled, CommitSafe;
    SettledIsCommit(l, s);
  }

  lemma CommittedWrong(l: Placed, a: Session, g: Ledger, e: Event, i: nat)
    requires Fits(l, g) && e.Committed? && IsImage(a.m) && i < l.live.len && !Covers(S(l, a.m, i), g.bytes[i])
    ensures !Right(l, Settled(l, a), g, e)
  {
    hide Settled, Written, S, L, Overlay, Noted, Covers, Both;
    var t := Settled(l, a);
    SettledBytes(l, a);
    SettledEnds(l, a);
    MergeNamed(l, a.w, a.m, i);
    NotedAt(l, g, e, i);
    ClosedAt(l, t, i);
    BothLoses(S(l, a.m, i), L(l, a.m, i));
  }

  lemma ClosedAt(l: Placed, t: Session, i: nat)
    requires IsImage(t.m) && t.w.None? && i < l.live.len
    ensures Overlay(l, t.w, t.m)[i] == L(l, t.m, i)
  {}

  /** Bits lost on this device already. */
  lemma SpoiledHere(l: Placed, s: Session, g: Ledger, e: Event, o: u32, i: nat)
    requires Stands(l, s, g) && e.Committed? && Untraced(e) && IsBlock(l, o) && i < l.live.len && InBlock(o, i)
    requires g.marked[i] && IsImage(s.m) && !Intact(l, s, o, g)
    ensures Step(l, s, e, Settled(l, s)) && !Right(l, Settled(l, s), g, e)
  {
    hide Stands, Step, S, L, Written, Settled, Overlay, Noted;
    StandsAt(l, s, g, i);
    SameBlock(l, s.w, o, i);
    RefusedIsOpen(l, s, i);
    SettledTraced(l, s, e);
    var k: nat :| k < l.live.len && InBlock(o, k) && S(l, s.m, k) != g.bytes[k];
    SameBlock(l, s.w, o, k);
    NotedAt(l, g, e, k);
    SettledBytes(l, s);
    SettledEnds(l, s);
    MergeNamed(l, s.w, s.m, k);
    ClosedAt(l, Settled(l, s), k);
  }

  /** The guard is exact. After any run of which it held throughout, with writes and commits
      failing anywhere, a write accepted or a commit that passes next gives the host what it wrote
      on every device on which the same calls can have had the same outcomes, if and only if it
      holds again. */
  lemma SureExactlyWhen(l: Placed, sessions: seq<Session>, events: seq<Event>, e: Event)
    requires SureRun(l, sessions, events) && IsImage(sessions[0].m)
    requires (e.Accepted? && IsBlock(l, e.offset)) || (e.Committed? && Untraced(e))
    ensures var g := Book(l, sessions[0], events);
            Sure(l, g, e) <==>
              forall rs, t :: Run(l, rs, events) && rs[0] == sessions[0] && Step(l, rs[|events|], e, t) ==>
                Right(l, t, g, e)
  {
    hide Step, Sure, Right, Stands, Clean, Untraced, Book, SureRun;
    SureLength(l, sessions, events);
    var g := Book(l, sessions[0], events);
    if Sure(l, g, e) {
      forall rs, t | Run(l, rs, events) && rs[0] == sessions[0] && Step(l, rs[|events|], e, t)
        ensures Right(l, t, g, e)
      {
        SameCalls(l, sessions, events, rs);
        SureRunStands(l, rs, events);
        SureIsRight(l, rs[|events|], g, e, t);
      }
    } else if e.Accepted? {
      var rs, t := UnsureWriteIsWrong(l, sessions, events, e);
    } else {
      var rs, t := UnsureCommitIsWrong(l, sessions, events, e);
    }
  }

  lemma SameCalls(l: Placed, sessions: seq<Session>, events: seq<Event>, rs: seq<Session>)
    requires SureRun(l, sessions, events) && Run(l, rs, events) && rs[0] == sessions[0]
    ensures SureRun(l, rs, events)
  {
    hide Step, AllSure, Clean, Untraced;
  }

  /** So a run of calls of which the guard fails somewhere has a device on which they go wrong
      there. */
  lemma {:induction false} UnsureRunCanGoWrong(l: Placed, sessions: seq<Session>, events: seq<Event>)
    returns (k: nat, rs: seq<Session>, t: Session)
    requires Run(l, sessions, events) && IsImage(sessions[0].m) && Clean(l, sessions[0].w, sessions[0].m)
    requires forall j :: 0 <= j < |events| ==> Untraced(events[j])
    requires !AllSure(l, Known(l, sessions[0]), events)
    ensures k < |events| && Run(l, rs, events[..k]) && rs[0] == sessions[0] && Step(l, rs[k], events[k], t)
    ensures !Right(l, t, Book(l, sessions[0], events[..k]), events[k])
    decreases |events|
  {
    hide Step, Sure, Right, Clean, Untraced, Known;
    var n := |events| - 1;
    var earlier, e := events[..n], events[n];
    assert events == earlier + [e];
    NotedAllEnds(l, Known(l, sessions[0]), earlier, e);
    assert forall j :: 0 <= j < n ==> Step(l, sessions[j], events[j], sessions[j + 1]);
    assert Run(l, sessions[..n + 1], earlier);
    if AllSure(l, Known(l, sessions[0]), earlier) {
      k := n;
      assert Step(l, sessions[n], events[n], sessions[n + 1]);
      UnsureEnds(l, sessions[n], Book(l, sessions[0], earlier), e, sessions[n + 1]);
      if e.Accepted? {
        rs, t := UnsureWriteIsWrong(l, sessions[..n + 1], earlier, e);
      } else {
        rs, t := UnsureCommitIsWrong(l, sessions[..n + 1], earlier, e);
      }
    } else {
      k, rs, t := UnsureRunCanGoWrong(l, sessions[..n + 1], earlier);
      assert earlier[..k] == events[..k];
    }
  }

  lemma UnsureEnds(l: Placed, s: Session, g: Ledger, e: Event, t: Session)
    requires Fits(l, g) && Step(l, s, e, t) && !Sure(l, g, e)
    ensures (e.Accepted? && IsBlock(l, e.offset)) || e.Committed?
  {
    hide CommitEffect, Covers;
  }
}
