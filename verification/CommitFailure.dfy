/** What a commit that failed costs until one passes: what the host then reads back, and what
    becomes of a block it writes. */
module CommitFailure {
  import opened Wrappers
  import opened NorImage
  import opened StagedImage
  import opened StagedRun
  import opened StagedFailure

  // ---------------------------------------------------------------- The worst a commit can do

  /** `m` with `bytes` at `at`. */
  function Spliced(m: Image, at: nat, bytes: seq<byte>): (r: Image)
    requires at + |bytes| <= |m|
    ensures |r| == |m|
  {
    m[..at] + bytes + m[at + |bytes|..]
  }

  lemma SplicedAt(m: Image, at: nat, bytes: seq<byte>)
    requires at + |bytes| <= |m|
    ensures forall k :: 0 <= k < |m| ==>
              Spliced(m, at, bytes)[k] == if at <= k < at + |bytes| then bytes[k - at] else m[k]
  {}

  /** Staging filled with everything the commit will make live. */
  function Gathered(l: Placed, s: Session): (m: Image)
    requires IsImage(s.m)
    ensures IsImage(m)
  {
    Spliced(s.m, l.staging.origin, Merged(l, s.w, s.m))
  }

  /** A commit that fails once it has filled staging and erased the live region, as its copy
      begins. */
  function Emptied(l: Placed, s: Session): (t: Session)
    requires IsImage(s.m)
    ensures IsImage(t.m)
  {
    Session(s.w, Erased(Gathered(l, s), l.live.origin, l.live.origin + l.live.len))
  }

  lemma GatheredBytes(l: Placed, s: Session)
    requires IsImage(s.m)
    ensures var m := Gathered(l, s);
            && Elsewhere(l, s.m, m)
            && forall i: nat :: i < l.live.len ==> S(l, m, i) == M(l, s.w, s.m, i) && L(l, m, i) == L(l, s.m, i)
  {
    hide M, Spliced;
    SplicedAt(s.m, l.staging.origin, Merged(l, s.w, s.m));
  }

  lemma EmptiedBytes(l: Placed, s: Session)
    requires IsImage(s.m)
    ensures var m := Emptied(l, s).m;
            && Elsewhere(l, s.m, m)
            && forall i: nat :: i < l.live.len ==> S(l, m, i) == M(l, s.w, s.m, i) && L(l, m, i) == ERASED_BYTE
  {
    hide M, Gathered;
    GatheredBytes(l, s);
  }

  lemma BareKept(a: byte)
    ensures a & 0xFF == a
  {}

  lemma EmptiedMerge(l: Placed, s: Session, i: nat)
    requires IsImage(s.m) && i < l.live.len
    ensures M(l, s.w, Emptied(l, s).m, i) == M(l, s.w, s.m, i)
  {
    hide Emptied, Written;
    EmptiedBytes(l, s);
    BareKept(S(l, Emptied(l, s).m, i));
  }

  lemma MergeLoses(l: Placed, s: Session, m: Image)
    requires IsImage(s.m) && IsImage(m) && forall i: nat :: i < l.live.len ==> S(l, m, i) == M(l, s.w, s.m, i)
    ensures StagingLoses(l, s.m, m)
  {
    forall i: nat | i < l.live.len ensures Covers(S(l, s.m, i), S(l, m, i)) {
      BareMergeLoses(S(l, s.m, i), L(l, s.m, i));
    }
  }

  lemma BareMergeLoses(a: byte, b: byte)
    ensures a & a == a && a & (a & b) == a & b
  {}

  lemma EmptiedIsFailure(l: Placed, s: Session, trace: seq<Image>)
    requires IsImage(s.m) && s.w.Some?
    ensures Step(l, s, Interrupted(trace, trace), Emptied(l, s))
  {
    hide Emptied, M;
    EmptiedBytes(l, s);
    EmptiedKeepsMarks(l, s);
    forall i: nat | i < l.live.len ensures M(l, s.w, Emptied(l, s).m, i) == M(l, s.w, s.m, i) {
      EmptiedMerge(l, s, i);
    }
    assert Merged(l, s.w, Emptied(l, s).m) == Merged(l, s.w, s.m);
    assert Staging(l, Emptied(l, s).m) == Merged(l, s.w, s.m);
    MergeLoses(l, s, Emptied(l, s).m);
  }

  /** Attempts that failed one after another leave the device as one that failed could. */
  lemma FailedCommitsAreOne(l: Placed, s: Session, trace: seq<Image>, attempts: seq<Attempt>)
    requires s.w.Some? && CommitRun(l, s.w, s.m, trace, attempts) && attempts != []
    ensures var last := attempts[|attempts| - 1];
            Step(l, s, Interrupted(trace, last.trace), Session(s.w, last.now))
  {
    CommitRunIsProgress(l, s.w, s.m, trace, attempts);
    hide CommitSafe, Merged;
  }

  // ---------------------------------------------------------------- Reading

  lemma BareAllOnes(a: byte, b: byte)
    ensures a & b == 0xFF ==> a == 0xFF && b == 0xFF
  {}

  /** What a failed commit keeps of one byte of a clean session: a written block as it was, of
      any other the bits its live byte had, in staging and live. */
  lemma FailedCommitByte(l: Placed, s: Session, e: Event, t: Session, i: nat)
    requires e.Interrupted? && Step(l, s, e, t) && IsImage(s.m) && Clean(l, s.w, s.m) && i < l.live.len
    ensures IsImage(t.m) && t.w == s.w && t.w.Some?
    ensures if Written(l, s.w, i) then S(l, t.m, i) == S(l, s.m, i)
            else Both(S(l, t.m, i), L(l, t.m, i)) == L(l, s.m, i)
  {
    hide Written, Step, S, L, Clean, Both;
    InterruptedMerge(l, s, e, t, i);
    if !Written(l, s.w, i) {
      CleanBase(l, s, i);
      BaseIs(l, s, i);
      BothFull(L(l, s.m, i));
    }
  }

  lemma BothFull(a: byte)
    ensures Both(ERASED_BYTE, a) == a
  {}

  /** A host reads on after a failed commit what it read before it, wherever the commit stopped,
      if and only if every live byte it had not written over was erased. */
  lemma ReadAfterFailedCommitExactlyWhen(l: Placed, s: Session)
    requires IsImage(s.m) && s.w.Some? && Clean(l, s.w, s.m)
    ensures (forall before, after, t :: Step(l, s, Interrupted(before, after), t) ==>
               IsImage(t.m) && Overlay(l, t.w, t.m) == Overlay(l, s.w, s.m))
       <==> forall i: nat :: i < l.live.len && !Written(l, s.w, i) ==> L(l, s.m, i) == ERASED_BYTE
  {
    hide Step, Overlay, Written, Emptied, Both, Clean;
    if forall i: nat :: i < l.live.len && !Written(l, s.w, i) ==> L(l, s.m, i) == ERASED_BYTE {
      forall before, after, t | Step(l, s, Interrupted(before, after), t)
        ensures IsImage(t.m) && Overlay(l, t.w, t.m) == Overlay(l, s.w, s.m)
      {
        BlankStaysRead(l, s, Interrupted(before, after), t);
      }
    } else {
      var i: nat :| i < l.live.len && !Written(l, s.w, i) && L(l, s.m, i) != ERASED_BYTE;
      var t := Emptied(l, s);
      EmptiedIsFailure(l, s, []);
      EmptiedBytes(l, s);
      OverlayAt(l, s.w, s.m, i);
      OverlayAt(l, t.w, t.m, i);
      EmptiedKeepsMarks(l, s);
      assert Overlay(l, t.w, t.m)[i] != Overlay(l, s.w, s.m)[i];
    }
  }

  lemma EmptiedKeepsMarks(l: Placed, s: Session)
    requires IsImage(s.m)
    ensures Emptied(l, s).w == s.w
  {}

  lemma BlankStaysRead(l: Placed, s: Session, e: Event, t: Session)
    requires e.Interrupted? && Step(l, s, e, t) && IsImage(s.m) && Clean(l, s.w, s.m)
    requires forall i: nat :: i < l.live.len && !Written(l, s.w, i) ==> L(l, s.m, i) == ERASED_BYTE
    ensures IsImage(t.m) && Overlay(l, t.w, t.m) == Overlay(l, s.w, s.m)
  {
    hide Step, Overlay, Written, S, L, Clean, Both;
    FailedCommitByte(l, s, e, t, 0);
    forall i: nat | i < l.live.len ensures Overlay(l, t.w, t.m)[i] == Overlay(l, s.w, s.m)[i] {
      FailedCommitByte(l, s, e, t, i);
      OverlayAt(l, s.w, s.m, i);
      OverlayAt(l, t.w, t.m, i);
      FullBoth(S(l, t.m, i), L(l, t.m, i));
    }
  }

  lemma FullBoth(a: byte, b: byte)
    ensures Both(a, b) == ERASED_BYTE ==> b == ERASED_BYTE
  {
    BareAllOnes(a, b);
  }

  // ---------------------------------------------------------------- Writing

  /** Whether a block written after a failed commit can be trusted: it was written before, or it
      needs no bit that was not live. */
  predicate Refilled(l: Placed, s: Session, offset: u32, data: HostBlock)
    requires IsImage(s.m) && IsBlock(l, offset)
  {
    || Written(l, s.w, offset)
    || forall i: nat :: i < l.live.len && InBlock(offset, i) ==> Covers(L(l, s.m, i), data[i - offset])
  }

  lemma RefilledAt(l: Placed, s: Session, offset: u32, data: HostBlock, i: nat)
    requires IsImage(s.m) && IsBlock(l, offset) && Refilled(l, s, offset, data)
    requires i < l.live.len && InBlock(offset, i) && !Written(l, s.w, i)
    ensures Covers(L(l, s.m, i), data[i - offset])
  {
    SameBlock(l, s.w, offset, i);
    hide Written, L, Covers;
  }

  lemma BareSharedCover(a: byte, b: byte, d: byte)
    requires (a & b) & d == d
    ensures a & d == d
  {}

  /** A block trusted after a failed commit is staged as it was sent. */
  lemma RefilledByte(l: Placed, s: Session, e: Event, t: Session, offset: u32, data: HostBlock, u: Session, i: nat)
    requires e.Interrupted? && Step(l, s, e, t) && IsImage(s.m) && Clean(l, s.w, s.m)
    requires WriteAccepted(l, t, offset, data, u) && Refilled(l, s, offset, data)
    requires i < l.live.len && InBlock(offset, i)
    ensures IsImage(u.m) && S(l, u.m, i) == data[i - offset]
  {
    hide Step, Written, S, L, Clean, Both, WriteAccepted, Base, Refilled, Covers;
    AcceptedIsBlock(l, t, offset, data, u);
    FailedCommitByte(l, s, e, t, i);
    AcceptedByte(l, t, offset, data, u, i);
    BaseIs(l, t, i);
    if Written(l, s.w, i) {
      CoversIsBoth(Base(l, t, i), data[i - offset]);
    } else {
      RefilledAt(l, s, offset, data, i);
      SharedCover(S(l, t.m, i), L(l, t.m, i), data[i - offset]);
    }
  }

  lemma CoversIsBoth(a: byte, d: byte)
    ensures Covers(a, d) <==> Both(a, d) == d
  {}

  lemma SharedCover(a: byte, b: byte, d: byte)
    requires Covers(Both(a, b), d)
    ensures Both(a, d) == d
  {
    BareSharedCover(a, b, d);
  }

  /** The write of `data` that follows the worst failed commit. */
  function Regretted(l: Placed, s: Session, offset: u32, data: HostBlock): (u: Session)
    requires IsImage(s.m) && IsBlock(l, offset)
    ensures IsImage(u.m)
  {
    Passed(l, Emptied(l, s), offset, data)
  }

  lemma RegrettedIsAccepted(l: Placed, s: Session, offset: u32, data: HostBlock)
    requires IsImage(s.m) && s.w.Some? && IsBlock(l, offset) && !Written(l, s.w, offset)
    ensures Step(l, s, Interrupted([], []), Emptied(l, s))
    ensures WriteAccepted(l, Emptied(l, s), offset, data, Regretted(l, s, offset, data))
  {
    hide Step, Emptied, Passed, WriteAccepted, Written;
    EmptiedIsFailure(l, s, []);
    EmptiedKeepsMarks(l, s);
    PassedIsAcceptance(l, Emptied(l, s), offset, data);
  }

  lemma RegrettedByte(l: Placed, s: Session, offset: u32, data: HostBlock, i: nat)
    requires IsImage(s.m) && s.w.Some? && Clean(l, s.w, s.m) && IsBlock(l, offset) && !Written(l, s.w, offset)
    requires i < l.live.len && InBlock(offset, i) && !Covers(L(l, s.m, i), data[i - offset])
    ensures var u := Regretted(l, s, offset, data);
            u.w.Some? && Written(l, u.w, i) && S(l, u.m, i) != data[i - offset]
  {
    hide Step, Written, S, L, Clean, Both, WriteAccepted, Base, Covers, Emptied, Passed;
    var t, u := Emptied(l, s), Regretted(l, s, offset, data);
    SameBlock(l, s.w, offset, i);
    RegrettedIsAccepted(l, s, offset, data);
    AcceptedByte(l, t, offset, data, u, i);
    FailedCommitByte(l, s, Interrupted([], []), t, i);
    BaseIs(l, t, i);
    EmptiedBytes(l, s);
    BothErased(S(l, t.m, i));
    CoversIsBoth(L(l, s.m, i), data[i - offset]);
  }

  /** A block accepted after a failed commit reads back as it was sent, wherever that commit
      stopped, if and only if it was written before in the session or needs no bit that its live
      bytes lacked: the commit has filled staging, and only marked blocks are checked. */
  lemma WriteAfterFailedCommitExactlyWhen(l: Placed, s: Session, offset: u32, data: HostBlock)
    requires IsImage(s.m) && s.w.Some? && Clean(l, s.w, s.m) && IsBlock(l, offset)
    ensures (forall before, after, t, u :: Step(l, s, Interrupted(before, after), t)
                                           && WriteAccepted(l, t, offset, data, u) ==>
               ReadsBack(l, u, offset, data))
       <==> Refilled(l, s, offset, data)
  {
    hide Step, WriteAccepted, Written, Clean, Emptied, Passed, ReadsBack;
    if Refilled(l, s, offset, data) {
      forall before, after, t, u | Step(l, s, Interrupted(before, after), t) && WriteAccepted(l, t, offset, data, u)
        ensures ReadsBack(l, u, offset, data)
      {
        RefilledReadsBack(l, s, Interrupted(before, after), t, offset, data, u);
      }
    } else {
      var i: nat :| i < l.live.len && InBlock(offset, i) && !Covers(L(l, s.m, i), data[i - offset]);
      RegrettedIsAccepted(l, s, offset, data);
      RegrettedByte(l, s, offset, data, i);
      NotReadBack(l, Regretted(l, s, offset, data), offset, data, i);
    }
  }

  /** The host reads the block at `offset` as `data`. */
  predicate ReadsBack(l: Placed, u: Session, offset: u32, data: HostBlock) {
    && IsImage(u.m)
    && forall i: nat :: i < l.live.len && InBlock(offset, i) ==> Overlay(l, u.w, u.m)[i] == data[i - offset]
  }

  lemma NotReadBack(l: Placed, u: Session, offset: u32, data: HostBlock, i: nat)
    requires IsImage(u.m) && i < l.live.len && InBlock(offset, i) && Written(l, u.w, i)
    requires S(l, u.m, i) != data[i - offset]
    ensures !ReadsBack(l, u, offset, data)
  {
    hide Written, Overlay;
    OverlayAt(l, u.w, u.m, i);
  }

  lemma RefilledReadsBack(l: Placed, s: Session, e: Event, t: Session, offset: u32, data: HostBlock, u: Session)
    requires e.Interrupted? && Step(l, s, e, t) && IsImage(s.m) && Clean(l, s.w, s.m) && IsBlock(l, offset)
    requires WriteAccepted(l, t, offset, data, u) && Refilled(l, s, offset, data)
    ensures ReadsBack(l, u, offset, data)
  {
    hide Step, Written, Overlay, S, L, Clean, WriteAccepted, Refilled;
    RefilledByte(l, s, e, t, offset, data, u, offset);
    forall i: nat | i < l.live.len && InBlock(offset, i) ensures Overlay(l, u.w, u.m)[i] == data[i - offset] {
      FailedCommitByte(l, s, e, t, i);
      AcceptedByte(l, t, offset, data, u, i);
      RefilledByte(l, s, e, t, offset, data, u, i);
      OverlayAt(l, u.w, u.m, i);
    }
  }

  // ---------------------------------------------------------------- Committing what was written

  /** The commit that passes after that write makes live what the host read before the failed
      one with the block replaced, wherever the failed one stopped, under the same condition. */
  lemma CommitAfterThatExactlyWhen(l: Placed, s: Session, offset: u32, data: HostBlock)
    requires IsImage(s.m) && s.w.Some? && Clean(l, s.w, s.m) && IsBlock(l, offset) && offset + BLOCK_BYTES <= l.live.len
    ensures (forall before, after, t, u, begun, ended, v ::
               && Step(l, s, Interrupted(before, after), t)
               && WriteAccepted(l, t, offset, data, u)
               && Step(l, u, Committed(begun, ended), v) ==>
               IsImage(v.m) && Live(l, v.m) == WithBlock(Overlay(l, s.w, s.m), offset, data))
       <==> Refilled(l, s, offset, data)
  {
    hide Step, WriteAccepted, Written, Clean, Emptied, Passed, Overlay, WithBlock, Live, Settled;
    if Refilled(l, s, offset, data) {
      forall before, after, t, u, begun, ended, v |
        && Step(l, s, Interrupted(before, after), t)
        && WriteAccepted(l, t, offset, data, u)
        && Step(l, u, Committed(begun, ended), v)
        ensures IsImage(v.m) && Live(l, v.m) == WithBlock(Overlay(l, s.w, s.m), offset, data)
      {
        RefilledIsCommitted(l, s, Interrupted(before, after), t, offset, data, u, Committed(begun, ended), v);
      }
    } else {
      var i: nat :| i < l.live.len && InBlock(offset, i) && !Covers(L(l, s.m, i), data[i - offset]);
      var u := Regretted(l, s, offset, data);
      var v := Settled(l, u);
      RegrettedIsAccepted(l, s, offset, data);
      RegrettedByte(l, s, offset, data, i);
      SettledIsCommit(l, u);
      SettledByte(l, u, i);
      WithBlockAt(Overlay(l, s.w, s.m), offset, data, i);
      assert Live(l, v.m)[i] != WithBlock(Overlay(l, s.w, s.m), offset, data)[i];
    }
  }

  /** A commit that passes: staging and the live region both hold the merge. */
  function Settled(l: Placed, s: Session): (t: Session)
    requires IsImage(s.m)
    ensures IsImage(t.m)
  {
    Session(None, Spliced(Gathered(l, s), l.live.origin, Merged(l, s.w, s.m)))
  }

  lemma SettledBytes(l: Placed, s: Session)
    requires IsImage(s.m)
    ensures var m := Settled(l, s).m;
            && Elsewhere(l, s.m, m)
            && forall i: nat :: i < l.live.len ==> S(l, m, i) == M(l, s.w, s.m, i) == L(l, m, i)
  {
    hide M, Gathered, Spliced;
    GatheredBytes(l, s);
    SplicedAt(Gathered(l, s), l.live.origin, Merged(l, s.w, s.m));
  }

  lemma SettledIsCommit(l: Placed, s: Session)
    requires IsImage(s.m) && s.w.Some?
    ensures Step(l, s, Committed([], []), Settled(l, s))
  {
    hide Settled, M;
    SettledBytes(l, s);
    var m := Settled(l, s).m;
    forall i: nat | i < l.live.len ensures M(l, s.w, m, i) == M(l, s.w, s.m, i) { SettledMerge(l, s, i); }
    assert Merged(l, s.w, m) == Merged(l, s.w, s.m);
    assert Staging(l, m) == Merged(l, s.w, s.m);
    assert Live(l, m) == Merged(l, s.w, s.m);
    MergeLoses(l, s, m);
    SettledEnds(l, s);
  }

  lemma SettledEnds(l: Placed, s: Session)
    requires IsImage(s.m)
    ensures Settled(l, s).w.None?
  {}

  lemma SettledMerge(l: Placed, s: Session, i: nat)
    requires IsImage(s.m) && i < l.live.len
    ensures M(l, s.w, Settled(l, s).m, i) == M(l, s.w, s.m, i)
  {
    hide Settled, Written;
    SettledBytes(l, s);
    BothItself(S(l, Settled(l, s).m, i));
  }

  lemma BothItself(a: byte)
    ensures a & a == a
  {}

  lemma SettledByte(l: Placed, s: Session, i: nat)
    requires IsImage(s.m) && i < l.live.len && Written(l, s.w, i)
    ensures Live(l, Settled(l, s).m)[i] == S(l, s.m, i)
  {
    hide Settled, Written;
    SettledBytes(l, s);
  }

  lemma RefilledIsCommitted(l: Placed, s: Session, e: Event, t: Session, offset: u32, data: HostBlock, u: Session,
                            f: Event, v: Session)
    requires e.Interrupted? && Step(l, s, e, t) && IsImage(s.m) && Clean(l, s.w, s.m) && IsBlock(l, offset)
    requires WriteAccepted(l, t, offset, data, u) && Refilled(l, s, offset, data) && offset + BLOCK_BYTES <= l.live.len
    requires f.Committed? && Step(l, u, f, v)
    ensures IsImage(v.m) && Live(l, v.m) == WithBlock(Overlay(l, s.w, s.m), offset, data)
  {
    hide Step, Written, Overlay, S, L, Clean, WriteAccepted, Refilled, WithBlock, Both, Base, Covers;
    CommittedByte(l, u, f, v, 0);
    forall i: nat | i < l.live.len ensures L(l, v.m, i) == WithBlock(Overlay(l, s.w, s.m), offset, data)[i] {
      CommittedByte(l, u, f, v, i);
      AcceptedByte(l, t, offset, data, u, i);
      FailedCommitByte(l, s, e, t, i);
      BaseIs(l, t, i);
      OverlayAt(l, s.w, s.m, i);
      WithBlockAt(Overlay(l, s.w, s.m), offset, data, i);
      if InBlock(offset, i) { RefilledByte(l, s, e, t, offset, data, u, i); }
    }
  }

  // ---------------------------------------------------------------- A case in point

  /** A device erased but for a live region of zeroes. */
  function Zeroes(l: Placed): (m: Image)
    ensures IsImage(m)
  {
    seq(ADDRESS_SPACE, k requires 0 <= k < ADDRESS_SPACE =>
      if l.live.origin <= k < l.live.origin + l.live.len then 0 else ERASED_BYTE)
  }

  lemma ZeroAtFirst(l: Placed)
    ensures 0 < l.live.len && L(l, Zeroes(l), 0) == 0
  {}

  /** On it the host has written its second block and no other. */
  function OneBlockWritten(l: Placed): (s: Session)
    ensures IsImage(s.m)
  {
    SecondBlock(l);
    Passed(l, Session(None, Zeroes(l)), BLOCK_BYTES, Filled(0))
  }

  lemma SecondBlock(l: Placed)
    ensures IsBlock(l, 0) && IsBlock(l, BLOCK_BYTES)
  {}

  lemma OneBlockBytes(l: Placed)
    ensures var s := OneBlockWritten(l);
            s.w.Some? && Clean(l, s.w, s.m) && IsBlock(l, 0) && !Written(l, s.w, 0) && L(l, s.m, 0) == 0
  {
    hide Passed, WriteAccepted, Written, Base, Clean, Zeroes, S, L;
    SecondBlock(l);
    ZeroAtFirst(l);
    var before, s := Session(None, Zeroes(l)), OneBlockWritten(l);
    ClosedIsUnwritten(l, before.m);
    PassedIsAcceptance(l, before, BLOCK_BYTES, Filled(0));
    AcceptedWriteIsFlat(l, before, BLOCK_BYTES, Filled(0), s);
    AcceptedByte(l, before, BLOCK_BYTES, Filled(0), s, 0);
  }

  lemma ClosedIsUnwritten(l: Placed, m: Image)
    requires IsImage(m)
    ensures Clean(l, None, m) && forall i: nat :: i < l.live.len ==> !Written(l, None, i)
  {}

  /** A commit of one block that fails as its copy begins: the host, which read zeroes, reads
      erased bytes; the block of 0xF0 bytes it then writes is accepted and read back as zeroes,
      and a commit that passes makes the zeroes live. */
  lemma FailedCommitCanSpoilABlock(l: Placed)
    ensures var s, t := OneBlockWritten(l), Emptied(l, OneBlockWritten(l));
            && IsBlock(l, 0) && BLOCK_BYTES <= l.live.len
            && Step(l, s, Interrupted([], []), t)
            && Overlay(l, s.w, s.m)[0] == 0 && Overlay(l, t.w, t.m)[0] == ERASED_BYTE
            && var u := Regretted(l, s, 0, Filled(0xF0));
               && WriteAccepted(l, t, 0, Filled(0xF0), u) && Overlay(l, u.w, u.m)[0] == 0
               && Step(l, u, Committed([], []), Settled(l, u)) && Live(l, Settled(l, u).m)[0] == 0
  {
    hide Step, WriteAccepted, Written, Clean, Emptied, Passed, Overlay, Live, Settled, Both, Base, S, L, M,
         OneBlockWritten;
    var s := OneBlockWritten(l);
    var t := Emptied(l, s);
    OneBlockBytes(l);
    BlockFits(l, 0);
    EmptiedKeepsMarks(l, s);
    RegrettedIsAccepted(l, s, 0, Filled(0xF0));
    FailedCommitByte(l, s, Interrupted([], []), t, 0);
    EmptiedBytes(l, s);
    BothErased(S(l, t.m, 0));
    OverlayAt(l, s.w, s.m, 0);
    OverlayAt(l, t.w, t.m, 0);
    SpoiledToZero(l, s, t);
  }

  lemma SpoiledToZero(l: Placed, s: Session, t: Session)
    requires IsImage(s.m) && t == Emptied(l, s) && t.w.Some? && IsBlock(l, 0) && S(l, t.m, 0) == 0
    requires var u := Regretted(l, s, 0, Filled(0xF0)); WriteAccepted(l, t, 0, Filled(0xF0), u)
    ensures var u := Regretted(l, s, 0, Filled(0xF0));
            && Overlay(l, u.w, u.m)[0] == 0
            && Step(l, u, Committed([], []), Settled(l, u)) && Live(l, Settled(l, u).m)[0] == 0
  {
    hide Step, WriteAccepted, Written, Emptied, Passed, Overlay, Live, Settled, Base, S, L;
    var u := Regretted(l, s, 0, Filled(0xF0));
    AcceptedByte(l, t, 0, Filled(0xF0), u, 0);
    BaseIs(l, t, 0);
    OverlayAt(l, u.w, u.m, 0);
    SettledIsCommit(l, u);
    SettledByte(l, u, 0);
  }
}
