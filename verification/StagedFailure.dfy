/** What the bus can cost a staged write: how far the host may rely on what it wrote when some
    of its writes and commits failed. */
module StagedFailure {
  import opened Wrappers
  import opened NorImage
  import opened StagedImage
  import opened StagedRun

  // ---------------------------------------------------------------- The worst a bus can do

  /** The device once the first write of a session has erased staging. */
  function Opened(l: Placed, s: Session): (m: Image)
    requires IsImage(s.m)
    ensures IsImage(m)
  {
    if s.w.None? then Erased(s.m, l.staging.origin, l.staging.origin + l.staging.len) else s.m
  }

  function Programmed(l: Placed, s: Session, offset: u32, data: HostBlock): (m: Image)
    requires IsImage(s.m) && IsBlock(l, offset)
    ensures IsImage(m)
  {
    BlockFits(l, offset);
    AndAt(Opened(l, s), l.staging.origin + offset, data)
  }

  /** A write that fails after the device has programmed all of it. */
  function Stopped(l: Placed, s: Session, offset: u32, data: HostBlock): (t: Session)
    requires IsImage(s.m) && IsBlock(l, offset)
    ensures IsImage(t.m)
  {
    Session(Some(Marks(s.w)), Programmed(l, s, offset, data))
  }

  /** The same write accepted. */
  function Passed(l: Placed, s: Session, offset: u32, data: HostBlock): (t: Session)
    requires IsImage(s.m) && IsBlock(l, offset)
    ensures IsImage(t.m)
  {
    BlockFits(l, offset);
    Session(Some(WithSet(Marks(s.w), offset / BLOCK_BYTES)), Programmed(l, s, offset, data))
  }

  lemma OpenedBytes(l: Placed, s: Session)
    requires IsImage(s.m)
    ensures var m := Opened(l, s);
            && Elsewhere(l, s.m, m) && Live(l, m) == Live(l, s.m)
            && forall i: nat :: i < l.live.len ==> S(l, m, i) == Base(l, s, i)
  {}

  lemma OverBytes(l: Placed, m: Image, offset: u32, data: HostBlock)
    requires IsImage(m) && offset + BLOCK_BYTES <= l.live.len
    ensures var x := AndAt(m, l.staging.origin + offset, data);
            && Elsewhere(l, m, x) && Live(l, x) == Live(l, m)
            && forall i: nat :: i < l.live.len ==>
                 S(l, x, i) == if InBlock(offset, i) then S(l, m, i) & data[i - offset] else S(l, m, i)
  {}

  lemma ProgrammedBytes(l: Placed, s: Session, offset: u32, data: HostBlock)
    requires IsImage(s.m) && IsBlock(l, offset)
    ensures var m := Programmed(l, s, offset, data);
            && Elsewhere(l, s.m, m) && Live(l, m) == Live(l, s.m)
            && forall i: nat :: i < l.live.len ==>
                 S(l, m, i) == if InBlock(offset, i) then Base(l, s, i) & data[i - offset] else Base(l, s, i)
  {
    BlockFits(l, offset);
    OpenedBytes(l, s);
    OverBytes(l, Opened(l, s), offset, data);
    hide Opened, AndAt, Base, S;
  }

  lemma StoppedIsFailure(l: Placed, s: Session, offset: u32, data: HostBlock)
    requires IsImage(s.m) && IsBlock(l, offset) && Permitted(l, s, offset, data)
    ensures WriteFailed(l, s, offset, data, Stopped(l, s, offset, data))
  {
    ProgrammedBytes(l, s, offset, data);
    hide Programmed, AndAt, Opened, Base, S, Permitted;
  }

  lemma PassedIsAcceptance(l: Placed, s: Session, offset: u32, data: HostBlock)
    requires IsImage(s.m) && IsBlock(l, offset) && !Written(l, s.w, offset)
    ensures WriteAccepted(l, s, offset, data, Passed(l, s, offset, data))
  {
    BlockFits(l, offset);
    ProgrammedBytes(l, s, offset, data);
    hide Programmed, AndAt, Opened, Base, S;
  }

  lemma SameMarks(l: Placed, w: Option<Bitmap>, i: nat)
    requires i < l.live.len
    ensures Written(l, Some(Marks(w)), i) == Written(l, w, i)
  {
    if w.None? { EmptyBitmapIsUnset(i / BLOCK_BYTES); }
  }

  // ---------------------------------------------------------------- One failed write

  /** A byte of a failed write that no commit of the session can now get wrong. */
  lemma FailureSparesByte(l: Placed, s: Session, offset: u32, data: HostBlock, t: Session, i: nat)
    requires WriteFailed(l, s, offset, data, t) && t.w.Some? && Clean(l, s.w, s.m) && i < l.live.len
    requires InBlock(offset, i) && !Written(l, s.w, i) ==> Covers(data[i - offset], L(l, s.m, i))
    ensures M(l, t.w, t.m, i) == if Written(l, t.w, i) then S(l, t.m, i) else L(l, t.m, i)
  {
    SameMarks(l, s.w, i);
    assert Live(l, t.m)[i] == Live(l, s.m)[i];
    if !Written(l, s.w, i) { CleanBase(l, s, i); }
  }

  lemma SparedCommitIsExact(l: Placed, s: Session, offset: u32, data: HostBlock, t: Session)
    requires WriteFailed(l, s, offset, data, t) && t.w.Some? && Clean(l, s.w, s.m)
    requires Written(l, s.w, offset)
             || forall i: nat :: i < l.live.len && InBlock(offset, i) ==> Covers(data[i - offset], L(l, s.m, i))
    ensures IsImage(t.m) && Merged(l, t.w, t.m) == Overlay(l, t.w, t.m)
  {
    FailedIsImage(l, s, offset, data, t);
    hide WriteFailed, Written, Overlay, Base, M, IsSet;
    forall i: nat | i < l.live.len ensures Merged(l, t.w, t.m)[i] == Overlay(l, t.w, t.m)[i] {
      if InBlock(offset, i) { SameBlock(l, s.w, offset, i); }
      FailureSparesByte(l, s, offset, data, t, i);
      OverlayAt(l, t.w, t.m, i);
    }
  }

  /** Whether a failed write can cost the host anything depends on its own arguments: every
      commit made after it gives what the host reads back, however the write was torn, if
      and only if the block was written before in the session or the bytes sent have every
      bit of the bytes that are live there. */
  lemma CommitAfterFailureIsExactExactlyWhen(l: Placed, s: Session, offset: u32, data: HostBlock)
    requires IsImage(s.m) && IsBlock(l, offset) && Clean(l, s.w, s.m)
    ensures (forall t :: WriteFailed(l, s, offset, data, t) && t.w.Some? ==>
               Merged(l, t.w, t.m) == Overlay(l, t.w, t.m))
       <==> Written(l, s.w, offset)
            || forall i: nat :: i < l.live.len && InBlock(offset, i) ==> Covers(data[i - offset], L(l, s.m, i))
  {
    if Written(l, s.w, offset)
       || forall i: nat :: i < l.live.len && InBlock(offset, i) ==> Covers(data[i - offset], L(l, s.m, i))
    {
      forall t | WriteFailed(l, s, offset, data, t) && t.w.Some? ensures Merged(l, t.w, t.m) == Overlay(l, t.w, t.m) {
        SparedCommitIsExact(l, s, offset, data, t);
      }
    } else {
      var i: nat :| i < l.live.len && InBlock(offset, i) && !Covers(data[i - offset], L(l, s.m, i));
      var t := Stopped(l, s, offset, data);
      StoppedIsFailure(l, s, offset, data);
      StoppedCosts(l, s, offset, data, i);
      hide WriteFailed, Written, Overlay, Base, M, IsSet, Stopped;
      OverlayAt(l, t.w, t.m, i);
      assert Merged(l, t.w, t.m)[i] != Overlay(l, t.w, t.m)[i];
    }
  }

  lemma FailedIsImage(l: Placed, s: Session, offset: u32, data: HostBlock, t: Session)
    requires WriteFailed(l, s, offset, data, t)
    ensures IsImage(t.m)
  {}

  lemma OverlayAt(l: Placed, w: Option<Bitmap>, m: Image, i: nat)
    requires IsImage(m) && i < l.live.len
    ensures Overlay(l, w, m)[i] == if Written(l, w, i) then S(l, m, i) else L(l, m, i)
  {
    hide Written;
  }

  lemma StoppedCosts(l: Placed, s: Session, offset: u32, data: HostBlock, i: nat)
    requires IsImage(s.m) && IsBlock(l, offset) && Clean(l, s.w, s.m) && !Written(l, s.w, offset)
    requires i < l.live.len && InBlock(offset, i) && !Covers(data[i - offset], L(l, s.m, i))
    ensures var t := Stopped(l, s, offset, data);
            !Written(l, t.w, i) && M(l, t.w, t.m, i) != L(l, t.m, i)
  {
    var t := Stopped(l, s, offset, data);
    SameBlock(l, s.w, offset, i);
    SameMarks(l, s.w, i);
    CleanBase(l, s, i);
    ProgrammedBytes(l, s, offset, data);
    hide Programmed, Base;
    assert Live(l, t.m)[i] == Live(l, s.m)[i];
  }

  // ---------------------------------------------------------------- What a host can rely on

  /** The bits two bytes share, named so that a proof need not look at them. */
  function Both(a: byte, b: byte): byte { a & b }

  /** What a host knows from the calls it made and how they ended: the array it has written;
      for each byte the bits staging still has at least; which blocks it has written since the
      last commit; and whether a commit has failed since. */
  datatype Ledger = Ledger(bytes: seq<byte>, floor: seq<byte>, marked: seq<bool>, cut: bool)

  predicate Fits(l: Placed, g: Ledger) { |g.bytes| == |g.floor| == |g.marked| == l.live.len }

  /** Whether a write of `data` could have passed the check that only lets a block written
      before lose bits, for all that the ledger tells. */
  predicate MayPass(l: Placed, g: Ledger, offset: u32, data: HostBlock)
    requires Fits(l, g)
  {
    forall i: nat | i < l.live.len && InBlock(offset, i) && g.marked[i] :: Covers(g.bytes[i], data[i - offset])
  }

  /** The ledger after one more operation. A failed write that was not refused may have cleared
      any bit its bytes clear; a failed commit may have filled the blocks not written. */
  function Noted(l: Placed, g: Ledger, e: Event): (h: Ledger)
    requires Fits(l, g)
    ensures Fits(l, h)
  {
    var n := l.live.len;
    match e
    case Accepted(offset, data) =>
      Ledger(seq(n, i requires 0 <= i < n => if InBlock(offset, i) then data[i - offset] else g.bytes[i]),
             seq(n, i requires 0 <= i < n => if InBlock(offset, i) then data[i - offset] else g.floor[i]),
             seq(n, i requires 0 <= i < n => InBlock(offset, i) || g.marked[i]), g.cut)
    case Refused(_, _) => g
    case Failed(offset, data) =>
      if !MayPass(l, g, offset, data) then g
      else
        g.(floor := seq(n, i requires 0 <= i < n =>
             if InBlock(offset, i) then Both(g.floor[i], data[i - offset]) else g.floor[i]))
    case Committed(_, _) => Ledger(g.bytes, seq(n, _ => ERASED_BYTE), seq(n, _ => false), false)
    case Interrupted(_, _) =>
      g.(floor := seq(n, i requires 0 <= i < n => if g.marked[i] then g.floor[i] else Both(g.floor[i], g.bytes[i])),
         cut := true)
  }

  /** What an operation that succeeds must be sure of to be exact: a block not written before
      needs every bit of its bytes in staging still, and a commit every bit of the array. */
  predicate Sure(l: Placed, g: Ledger, e: Event)
    requires Fits(l, g)
  {
    match e
    case Accepted(offset, data) =>
      forall i: nat | i < l.live.len && InBlock(offset, i) && !g.marked[i] :: Covers(g.floor[i], data[i - offset])
    case Committed(_, _) => forall i: nat | i < l.live.len :: Covers(g.floor[i], g.bytes[i])
    case _ => true
  }

  predicate AllSure(l: Placed, g: Ledger, events: seq<Event>)
    requires Fits(l, g)
    decreases |events|
  {
    events == [] || (Sure(l, g, events[0]) && AllSure(l, Noted(l, g, events[0]), events[1..]))
  }

  function NotedAll(l: Placed, g: Ledger, events: seq<Event>): (h: Ledger)
    requires Fits(l, g)
    ensures Fits(l, h)
    decreases |events|
  {
    if events == [] then g else NotedAll(l, Noted(l, g, events[0]), events[1..])
  }

  /** What the ledger's word on a byte comes to: a written byte is between the floor and the
      array; any other is the array's in the live region, or after a failed commit in the merge
      of the two regions, less bits the floor has lost. */
  predicate Agrees(marked: bool, cut: bool, open: bool, bytes: byte, floor: byte, staged: byte, base: byte,
                   live: byte)
  {
    if marked then Covers(bytes, staged) && Covers(staged, floor)
    else
      && (!cut ==> live == bytes)
      && Covers(base, floor)
      && (open ==> Covers(bytes, staged & live) && Covers(staged & live, bytes & floor))
  }

  predicate ByteStands(l: Placed, s: Session, g: Ledger, i: nat)
    requires IsImage(s.m) && Fits(l, g) && i < l.live.len
  {
    && Written(l, s.w, i) == g.marked[i]
    && Agrees(g.marked[i], g.cut, s.w.Some?, g.bytes[i], g.floor[i], S(l, s.m, i), Base(l, s, i), L(l, s.m, i))
  }

  ghost predicate Stands(l: Placed, s: Session, g: Ledger) {
    && IsImage(s.m) && Fits(l, g)
    && (s.w.None? ==> !g.cut)
    && forall i: nat :: i < l.live.len ==> ByteStands(l, s, g, i)
  }

  // ---------------------------------------------------------------- Each step

  lemma BareExact(floor: byte, data: byte, base: byte)
    requires floor & data == data && base & floor == floor
    ensures base & data == data
  {}

  lemma BareTornUnder(x: byte, base: byte, data: byte)
    requires (base | (base & data)) & x == x
    ensures base & x == x
  {}

  lemma BareTornOver(x: byte, base: byte, data: byte)
    requires x & (base & (base & data)) == base & (base & data)
    ensures x & (base & data) == base & data
  {}

  lemma BareCovers(a: byte, b: byte, c: byte)
    requires a & b == b && b & c == c
    ensures a & c == c
  {}

  lemma BareBoth(a: byte, b: byte, c: byte)
    requires a & b == b
    ensures (a & c) & (b & c) == b & c
  {}

  lemma BareOrder(a: byte, b: byte, c: byte)
    ensures (a & b) & c == (a & c) & b && (a & b) & c == a & (b & c)
  {}

  lemma BareSmall(a: byte, b: byte)
    ensures 0xFF & a == a && a & a == a && a & (a & b) == a & b && 0xFF & (a & b) == a & b
  {}

  /** A byte of an accepted block is the array's new one exactly. */
  lemma AcceptedAgrees(marked: bool, cut: bool, open: bool, bytes: byte, floor: byte, staged: byte, base: byte,
                       live: byte, data: byte)
    requires Agrees(marked, cut, open, bytes, floor, staged, base, live) && Covers(if marked then base else floor, data)
    ensures Agrees(true, cut, true, data, data, Both(base, data), Both(base, data), live)
  {
    if !marked { BareExact(floor, data, base); }
    BareSmall(data, data);
  }

  /** Opening a session changes nothing for a byte of another block. */
  lemma OpenedAgrees(marked: bool, cut: bool, open: bool, bytes: byte, floor: byte, staged: byte, base: byte,
                     live: byte)
    requires Agrees(marked, cut, open, bytes, floor, staged, base, live)
    requires if open then base == staged else base == ERASED_BYTE && !marked && !cut
    ensures Agrees(marked, cut, true, bytes, floor, base, base, live)
  {
    BareSmall(live, floor);
  }

  /** Covering is transitive, and kept by what two bytes share with a third. */
  lemma CoversJoins(a: byte, b: byte, c: byte)
    requires Covers(a, b) && Covers(b, c)
    ensures Covers(a, c)
  {
    BareCovers(a, b, c);
  }

  lemma CoversBoth(a: byte, b: byte, c: byte)
    requires Covers(a, b)
    ensures Covers(Both(a, c), Both(b, c))
  {
    BareBoth(a, b, c);
  }

  lemma TornCovers(x: byte, base: byte, data: byte)
    requires Between(x, base, Both(base, data))
    ensures Covers(base, x) && Covers(x, Both(base, data))
  {
    BareTornUnder(x, base, data);
    BareTornOver(x, base, data);
  }

  lemma BothOrder(a: byte, b: byte, c: byte)
    ensures Both(Both(a, b), c) == Both(Both(a, c), b) == Both(a, Both(b, c))
  {
    BareOrder(a, b, c);
  }

  lemma AgreesNamed(marked: bool, cut: bool, open: bool, bytes: byte, floor: byte, staged: byte, base: byte, live: byte)
    ensures Agrees(marked, cut, open, bytes, floor, staged, base, live) <==>
              if marked then Covers(bytes, staged) && Covers(staged, floor)
              else
                && (!cut ==> live == bytes)
                && Covers(base, floor)
                && (open ==> Covers(bytes, Both(staged, live)) && Covers(Both(staged, live), Both(bytes, floor)))
  {
    hide Covers;
  }

  /** A torn byte has lost no more than the bits its write clears. */
  lemma TornAgrees(marked: bool, cut: bool, bytes: byte, floor: byte, base: byte, live: byte, data: byte, x: byte)
    requires Agrees(marked, cut, true, bytes, floor, base, base, live) && Between(x, base, Both(base, data))
    ensures Agrees(marked, cut, true, bytes, Both(floor, data), x, x, live)
  {
    hide Agrees, Between, Covers, Both;
    AgreesNamed(marked, cut, true, bytes, floor, base, base, live);
    AgreesNamed(marked, cut, true, bytes, Both(floor, data), x, x, live);
    TornCovers(x, base, data);
    CoversBoth(base, floor, data);
    CoversJoins(x, Both(base, data), Both(floor, data));
    if marked {
      CoversJoins(bytes, base, x);
    } else {
      CoversBoth(base, x, live);
      CoversJoins(bytes, Both(base, live), Both(x, live));
      CoversBoth(x, Both(base, data), live);
      BothOrder(base, data, live);
      CoversBoth(Both(base, live), Both(bytes, floor), data);
      BothOrder(bytes, floor, data);
      CoversJoins(Both(x, live), Both(Both(base, live), data), Both(bytes, Both(floor, data)));
    }
  }

  lemma UnopenedAgrees(bytes: byte, floor: byte, staged: byte, other: byte, live: byte, data: byte)
    requires Agrees(false, false, false, bytes, floor, staged, ERASED_BYTE, live)
    ensures Agrees(false, false, false, bytes, Both(floor, data), other, ERASED_BYTE, live)
  {
    BareSmall(floor, data);
  }

  lemma BothErased(a: byte)
    ensures Both(a, ERASED_BYTE) == a
  {
    BareErased(a);
  }

  lemma LiveAgrees(bytes: byte, floor: byte, staged: byte, base: byte, live: byte)
    requires Agrees(false, false, false, bytes, floor, staged, base, live)
    ensures live == bytes
  {}

  /** With no write open, nothing is in doubt. */
  lemma FreshAgrees(bytes: byte, staged: byte)
    ensures Agrees(false, false, false, bytes, ERASED_BYTE, staged, ERASED_BYTE, bytes)
  {
    BareSmall(ERASED_BYTE, ERASED_BYTE);
  }

  lemma BareEqual(a: byte, b: byte, c: byte)
    requires a & b == b && b & c == c && c & a == a
    ensures a == b
  {}

  lemma BareEqualMerge(a: byte, m: byte, floor: byte)
    requires a & m == m && m & (a & floor) == a & floor && floor & a == a
    ensures a == m
  {}

  lemma BareFilled(s: byte, live: byte, bytes: byte, floor: byte)
    requires (s & live) & (bytes & floor) == bytes & floor
    ensures s & (floor & bytes) == floor & bytes
    ensures (s & live) & (bytes & (floor & bytes)) == bytes & (floor & bytes)
  {}

  /** A byte the floor covers is the array's: in the merge, and read back. */
  lemma CoveredAgrees(marked: bool, cut: bool, bytes: byte, floor: byte, staged: byte, live: byte)
    requires Agrees(marked, cut, true, bytes, floor, staged, staged, live) && Covers(floor, bytes)
    ensures (if marked then staged else Both(staged, live)) == bytes
  {
    if marked { BareEqual(bytes, staged, floor); } else { BareEqualMerge(bytes, staged & live, floor); }
  }

  /** A failed commit keeps the merge of a byte, and with it what the ledger says. */
  lemma FilledAgrees(marked: bool, cut: bool, bytes: byte, floor: byte, staged: byte, live: byte, x: byte, y: byte)
    requires Agrees(marked, cut, true, bytes, floor, staged, staged, live)
    requires if marked then x == staged else Both(x, y) == Both(staged, live)
    ensures Agrees(marked, true, true, bytes, if marked then floor else Both(floor, bytes), x, x, y)
  {
    if !marked { BareFilled(x, y, bytes, floor); }
  }

  lemma StandsAt(l: Placed, s: Session, g: Ledger, i: nat)
    requires Stands(l, s, g) && i < l.live.len
    ensures IsImage(s.m) && Fits(l, g) && ByteStands(l, s, g, i) && (s.w.None? ==> !g.cut)
  {
    hide ByteStands;
  }

  lemma SureAt(l: Placed, g: Ledger, offset: u32, data: HostBlock, i: nat)
    requires Fits(l, g) && Sure(l, g, Accepted(offset, data)) && i < l.live.len
    ensures InBlock(offset, i) && !g.marked[i] ==> Covers(g.floor[i], data[i - offset])
  {
    hide Covers;
  }

  /** What an operation makes of one byte of the ledger. */
  lemma NotedAt(l: Placed, g: Ledger, e: Event, i: nat)
    requires Fits(l, g) && i < l.live.len
    ensures var h := Noted(l, g, e);
            match e
            case Accepted(offset, data) =>
              && h.cut == g.cut
              && (if InBlock(offset, i) then h.bytes[i] == h.floor[i] == data[i - offset] && h.marked[i]
                  else h.bytes[i] == g.bytes[i] && h.floor[i] == g.floor[i] && h.marked[i] == g.marked[i])
            case Refused(_, _) => h == g
            case Failed(offset, data) =>
              && h.cut == g.cut && h.bytes[i] == g.bytes[i] && h.marked[i] == g.marked[i]
              && h.floor[i] == if InBlock(offset, i) && MayPass(l, g, offset, data)
                               then Both(g.floor[i], data[i - offset]) else g.floor[i]
            case Committed(_, _) => !h.cut && h.bytes[i] == g.bytes[i] && h.floor[i] == ERASED_BYTE && !h.marked[i]
            case Interrupted(_, _) =>
              && h.cut && h.bytes[i] == g.bytes[i] && h.marked[i] == g.marked[i]
              && h.floor[i] == if g.marked[i] then g.floor[i] else Both(g.floor[i], g.bytes[i])
  {
    hide Both;
  }

  lemma AcceptedByte(l: Placed, s: Session, offset: u32, data: HostBlock, t: Session, i: nat)
    requires WriteAccepted(l, s, offset, data, t) && i < l.live.len
    ensures IsImage(s.m) && IsImage(t.m) && t.w.Some? && L(l, t.m, i) == L(l, s.m, i)
    ensures S(l, t.m, i) == if InBlock(offset, i) then Both(Base(l, s, i), data[i - offset]) else Base(l, s, i)
    ensures Written(l, t.w, i) <==> InBlock(offset, i) || Written(l, s.w, i)
    ensures InBlock(offset, i) && Written(l, s.w, i) ==> Covers(Base(l, s, i), data[i - offset])
  {
    MarkedAfter(l, s.w, offset, i);
    assert Live(l, t.m)[i] == Live(l, s.m)[i];
    hide Written, IsSet, WithSet, Marks, Base;
    if InBlock(offset, i) { SameBlock(l, s.w, offset, i); }
  }

  lemma BaseIs(l: Placed, s: Session, i: nat)
    requires IsImage(s.m) && i < l.live.len
    ensures if s.w.Some? then Base(l, s, i) == S(l, s.m, i)
            else Base(l, s, i) == ERASED_BYTE && !Written(l, s.w, i)
  {
    hide IsSet;
  }

  lemma AcceptedStands(l: Placed, s: Session, g: Ledger, offset: u32, data: HostBlock, t: Session, i: nat)
    requires Stands(l, s, g) && WriteAccepted(l, s, offset, data, t) && Sure(l, g, Accepted(offset, data))
    requires i < l.live.len
    ensures IsImage(t.m) && ByteStands(l, t, Noted(l, g, Accepted(offset, data)), i)
  {
    hide Written, Stands, WriteAccepted, S, L, Base, Agrees, Covers, Noted, Both, Sure;
    StandsAt(l, s, g, i);
    AcceptedByte(l, s, offset, data, t, i);
    BaseIs(l, s, i);
    BaseIs(l, t, i);
    NotedAt(l, g, Accepted(offset, data), i);
    SureAt(l, g, offset, data, i);
    if InBlock(offset, i) {
      AcceptedAgrees(g.marked[i], g.cut, s.w.Some?, g.bytes[i], g.floor[i], S(l, s.m, i), Base(l, s, i), L(l, s.m, i),
                     data[i - offset]);
    } else {
      OpenedAgrees(g.marked[i], g.cut, s.w.Some?, g.bytes[i], g.floor[i], S(l, s.m, i), Base(l, s, i), L(l, s.m, i));
    }
  }

  lemma FailedByte(l: Placed, s: Session, offset: u32, data: HostBlock, t: Session, i: nat)
    requires WriteFailed(l, s, offset, data, t) && i < l.live.len
    ensures IsImage(s.m) && IsImage(t.m) && L(l, t.m, i) == L(l, s.m, i)
    ensures t.w.None? ==> s.w.None?
    ensures Written(l, t.w, i) == Written(l, s.w, i)
    ensures t.w.Some? ==>
              if InBlock(offset, i) then Between(S(l, t.m, i), Base(l, s, i), Both(Base(l, s, i), data[i - offset]))
                          else S(l, t.m, i) == Base(l, s, i)
  {
    SameMarks(l, s.w, i);
    assert Live(l, t.m)[i] == Live(l, s.m)[i];
    hide IsSet, Marks, Base;
  }

  /** A write the ledger rules out has failed before it programmed anything. */
  lemma ImpassableStays(l: Placed, s: Session, g: Ledger, offset: u32, data: HostBlock, t: Session)
    requires Stands(l, s, g) && WriteFailed(l, s, offset, data, t) && !MayPass(l, g, offset, data)
    ensures t == s
  {
    hide Written, Stands, S, L, Base, Between, Both, Covers;
    StandsAt(l, s, g, offset);
    var k: nat :| k < l.live.len && InBlock(offset, k) && g.marked[k] && !Covers(g.bytes[k], data[k - offset]);
    StandsAt(l, s, g, k);
    SameBlock(l, s.w, offset, k);
    BaseIs(l, s, k);
    if Covers(Base(l, s, k), data[k - offset]) { CoversJoins(g.bytes[k], Base(l, s, k), data[k - offset]); }
  }

  lemma FailedStands(l: Placed, s: Session, g: Ledger, offset: u32, data: HostBlock, t: Session, i: nat)
    requires Stands(l, s, g) && WriteFailed(l, s, offset, data, t) && i < l.live.len
    ensures IsImage(t.m) && ByteStands(l, t, Noted(l, g, Failed(offset, data)), i)
  {
    hide Written, Stands, WriteFailed, S, L, Base, Agrees, Between, Noted, Both, MayPass;
    StandsAt(l, s, g, i);
    FailedByte(l, s, offset, data, t, i);
    BaseIs(l, s, i);
    BaseIs(l, t, i);
    NotedAt(l, g, Failed(offset, data), i);
    var staged, base, live := S(l, s.m, i), Base(l, s, i), L(l, s.m, i);
    OpenedAgrees(g.marked[i], g.cut, s.w.Some?, g.bytes[i], g.floor[i], staged, base, live);
    if !MayPass(l, g, offset, data) {
      ImpassableStays(l, s, g, offset, data, t);
    } else if t.w.None? {
      var kept := if InBlock(offset, i) then data[i - offset] else ERASED_BYTE;
      UnopenedAgrees(g.bytes[i], g.floor[i], staged, S(l, t.m, i), live, kept);
      BothErased(g.floor[i]);
    } else if InBlock(offset, i) {
      TornAgrees(g.marked[i], g.cut, g.bytes[i], g.floor[i], base, live, data[i - offset], S(l, t.m, i));
    }
  }

  lemma CommittedByte(l: Placed, s: Session, e: Event, t: Session, i: nat)
    requires e.Committed? && Step(l, s, e, t) && i < l.live.len
    ensures IsImage(s.m) && IsImage(t.m) && t.w.None?
    ensures L(l, t.m, i) == if s.w.None? then L(l, s.m, i)
                            else if Written(l, s.w, i) then S(l, s.m, i) else Both(S(l, s.m, i), L(l, s.m, i))
  {
    if s.w.Some? { assert Live(l, t.m)[i] == Merged(l, s.w, s.m)[i]; }
  }

  lemma SureCommit(l: Placed, g: Ledger, e: Event, i: nat)
    requires Fits(l, g) && e.Committed? && Sure(l, g, e) && i < l.live.len
    ensures Covers(g.floor[i], g.bytes[i])
  {
    hide Covers;
  }

  lemma CommittedStands(l: Placed, s: Session, g: Ledger, e: Event, t: Session, i: nat)
    requires Stands(l, s, g) && e.Committed? && Step(l, s, e, t) && Sure(l, g, e) && i < l.live.len
    ensures IsImage(t.m) && ByteStands(l, t, Noted(l, g, e), i)
  {
    hide Written, Stands, Step, S, L, Base, Noted, Both, Sure, Agrees, Covers;
    StandsAt(l, s, g, i);
    CommittedByte(l, s, e, t, i);
    BaseIs(l, s, i);
    BaseIs(l, t, i);
    SureCommit(l, g, e, i);
    NotedAt(l, g, e, i);
    if s.w.Some? {
      CoveredAgrees(g.marked[i], g.cut, g.bytes[i], g.floor[i], S(l, s.m, i), L(l, s.m, i));
    } else {
      LiveAgrees(g.bytes[i], g.floor[i], S(l, s.m, i), Base(l, s, i), L(l, s.m, i));
    }
    FreshAgrees(g.bytes[i], S(l, t.m, i));
  }

  lemma InterruptedMerge(l: Placed, s: Session, e: Event, t: Session, i: nat)
    requires e.Interrupted? && Step(l, s, e, t) && i < l.live.len
    ensures IsImage(s.m) && IsImage(t.m) && s.w.Some? && t.w == s.w
    ensures if Written(l, s.w, i) then S(l, t.m, i) == S(l, s.m, i)
            else Both(S(l, t.m, i), L(l, t.m, i)) == Both(S(l, s.m, i), L(l, s.m, i))
  {
    assert Merged(l, t.w, t.m)[i] == Merged(l, s.w, s.m)[i];
  }

  lemma InterruptedStands(l: Placed, s: Session, g: Ledger, e: Event, t: Session, i: nat)
    requires Stands(l, s, g) && e.Interrupted? && Step(l, s, e, t) && i < l.live.len
    ensures IsImage(t.m) && ByteStands(l, t, Noted(l, g, e), i)
  {
    hide Written, Stands, Step, S, L, Base, Agrees, Noted, Both;
    StandsAt(l, s, g, i);
    InterruptedMerge(l, s, e, t, i);
    BaseIs(l, s, i);
    BaseIs(l, t, i);
    NotedAt(l, g, e, i);
    FilledAgrees(g.marked[i], g.cut, g.bytes[i], g.floor[i], S(l, s.m, i), L(l, s.m, i), S(l, t.m, i), L(l, t.m, i));
  }

  lemma StepStands(l: Placed, s: Session, g: Ledger, e: Event, t: Session)
    requires Stands(l, s, g) && Step(l, s, e, t) && Sure(l, g, e)
    ensures Stands(l, t, Noted(l, g, e))
  {
    hide WriteAccepted, WriteFailed, WriteRefused, CommitEffect, Noted, ByteStands, Sure;
    match e
    case Accepted(offset, data) =>
      forall i: nat | i < l.live.len ensures IsImage(t.m) && ByteStands(l, t, Noted(l, g, e), i) {
        AcceptedStands(l, s, g, offset, data, t, i);
      }
      AcceptedOpens(l, s, g, e, t);
    case Failed(offset, data) =>
      forall i: nat | i < l.live.len ensures IsImage(t.m) && ByteStands(l, t, Noted(l, g, e), i) {
        FailedStands(l, s, g, offset, data, t, i);
      }
      FailedOpens(l, s, g, e, t);
    case Committed(_, _) =>
      forall i: nat | i < l.live.len ensures ByteStands(l, t, Noted(l, g, e), i) { CommittedStands(l, s, g, e, t, i); }
      assert !Noted(l, g, e).cut by { CommitEnds(l, g, e); }
    case Interrupted(_, _) =>
      forall i: nat | i < l.live.len ensures ByteStands(l, t, Noted(l, g, e), i) {
        InterruptedStands(l, s, g, e, t, i);
      }
    case Refused(offset, data) =>
      RefusedStays(l, s, g, e, t);
  }

  lemma AcceptedOpens(l: Placed, s: Session, g: Ledger, e: Event, t: Session)
    requires Fits(l, g) && e.Accepted? && Step(l, s, e, t)
    ensures IsImage(t.m) && t.w.Some?
  {}

  lemma FailedOpens(l: Placed, s: Session, g: Ledger, e: Event, t: Session)
    requires Fits(l, g) && e.Failed? && Step(l, s, e, t)
    ensures IsImage(t.m) && (t.w.None? ==> s.w.None?) && Noted(l, g, e).cut == g.cut
  {}

  lemma CommitEnds(l: Placed, g: Ledger, e: Event)
    requires Fits(l, g) && e.Committed?
    ensures !Noted(l, g, e).cut
  {}

  lemma RefusedStays(l: Placed, s: Session, g: Ledger, e: Event, t: Session)
    requires Fits(l, g) && e.Refused? && Step(l, s, e, t)
    ensures t == s && Noted(l, g, e) == g
  {}

  // ---------------------------------------------------------------- Whole runs

  /** The ledger of a clean session: everything the host reads is known exactly. */
  function Known(l: Placed, s: Session): (g: Ledger)
    requires IsImage(s.m)
    ensures Fits(l, g)
  {
    var n := l.live.len;
    Ledger(Overlay(l, s.w, s.m),
           seq(n, i requires 0 <= i < n => if Written(l, s.w, i) then S(l, s.m, i) else ERASED_BYTE),
           seq(n, i requires 0 <= i < n => Written(l, s.w, i)), false)
  }

  lemma KnownStands(l: Placed, s: Session)
    requires IsImage(s.m) && Clean(l, s.w, s.m)
    ensures Stands(l, s, Known(l, s))
  {
    hide IsSet;
    forall i: nat | i < l.live.len ensures ByteStands(l, s, Known(l, s), i) {
      if !Written(l, s.w, i) { CleanBase(l, s, i); }
    }
  }

  lemma ReadByte(l: Placed, s: Session, g: Ledger, i: nat)
    requires Stands(l, s, g) && i < l.live.len
    ensures (if g.marked[i] then Covers(g.floor[i], g.bytes[i]) else !g.cut) ==>
              Overlay(l, s.w, s.m)[i] == g.bytes[i]
    ensures Covers(g.floor[i], g.bytes[i]) ==> Covers(Overlay(l, s.w, s.m)[i], g.bytes[i])
    ensures s.w.None? ==> L(l, s.m, i) == g.bytes[i]
  {
    hide Stands, Written, Overlay, S, L, Base, Covers, Agrees;
    StandsAt(l, s, g, i);
    OverlayAt(l, s.w, s.m, i);
    BaseIs(l, s, i);
    ReadsArray(g.marked[i], g.cut, s.w.Some?, g.bytes[i], g.floor[i], S(l, s.m, i), Base(l, s, i), L(l, s.m, i));
  }

  lemma MergedByte(l: Placed, s: Session, g: Ledger, i: nat)
    requires Stands(l, s, g) && i < l.live.len && s.w.Some? && Covers(g.floor[i], g.bytes[i])
    ensures Merged(l, s.w, s.m)[i] == g.bytes[i]
  {
    hide Stands, Written, Merged, S, L, Base, Covers, Agrees, Both;
    StandsAt(l, s, g, i);
    MergedNamed(l, s.w, s.m, i);
    BaseIs(l, s, i);
    CoveredAgrees(g.marked[i], g.cut, g.bytes[i], g.floor[i], S(l, s.m, i), L(l, s.m, i));
  }

  lemma ReadableByte(l: Placed, s: Session, g: Ledger, i: nat)
    requires Stands(l, s, g) && i < l.live.len
    ensures (if g.marked[i] then Covers(g.floor[i], g.bytes[i]) else !g.cut) ==>
              Overlay(l, s.w, s.m)[i] == g.bytes[i]
    ensures Covers(g.floor[i], g.bytes[i]) ==> Covers(Overlay(l, s.w, s.m)[i], g.bytes[i])
    ensures s.w.Some? && Covers(g.floor[i], g.bytes[i]) ==> Merged(l, s.w, s.m)[i] == g.bytes[i]
    ensures s.w.None? ==> Live(l, s.m)[i] == g.bytes[i]
  {
    hide ByteStands, Overlay, Merged, M, S, L, Covers, Live;
    ReadByte(l, s, g, i);
    LiveAt(l, s.m, i);
    if s.w.Some? && Covers(g.floor[i], g.bytes[i]) { MergedByte(l, s, g, i); }
  }

  lemma LiveAt(l: Placed, m: Image, i: nat)
    requires IsImage(m) && i < l.live.len
    ensures Live(l, m)[i] == L(l, m, i)
  {}

  /** The byte a host reads, by what the ledger says of it. */
  lemma ReadsArray(marked: bool, cut: bool, open: bool, bytes: byte, floor: byte, staged: byte, base: byte, live: byte)
    requires Agrees(marked, cut, open, bytes, floor, staged, base, live)
    requires if open then base == staged else !cut && !marked
    ensures var read := if marked then staged else live;
            && ((if marked then Covers(floor, bytes) else !cut) ==> read == bytes)
            && (Covers(floor, bytes) ==> Covers(read, bytes))
    ensures !open ==> live == bytes
  {
    hide Agrees, Covers, Both;
    AgreesNamed(marked, cut, open, bytes, floor, staged, base, live);
    CoversItself(live);
    CoversItself(staged);
    CoversItself(bytes);
    if open && Covers(floor, bytes) {
      CoveredAgrees(marked, cut, bytes, floor, staged, live);
      SharedIsCovered(staged, live);
    }
  }

  lemma SharedIsCovered(a: byte, b: byte)
    ensures Covers(b, Both(a, b))
  {}

  lemma MergedNamed(l: Placed, w: Option<Bitmap>, m: Image, i: nat)
    requires IsImage(m) && i < l.live.len
    ensures Merged(l, w, m)[i] == if Written(l, w, i) then S(l, m, i) else Both(S(l, m, i), L(l, m, i))
  {
    hide Written, S, L;
  }

  /** What standing means to the host: with no failed commit outstanding it reads the array,
      except where a re-write failed and bits may be gone; with one outstanding it still reads
      every bit the array has, and of the blocks it wrote the array; where no bit is in doubt a
      commit will make the array live; and with no write open the array is live. */
  lemma StandingIsReadable(l: Placed, s: Session, g: Ledger)
    requires Stands(l, s, g)
    ensures forall i: nat :: i < l.live.len && (if g.marked[i] then Covers(g.floor[i], g.bytes[i]) else !g.cut) ==>
              Overlay(l, s.w, s.m)[i] == g.bytes[i]
    ensures forall i: nat :: i < l.live.len && Covers(g.floor[i], g.bytes[i]) ==>
              Covers(Overlay(l, s.w, s.m)[i], g.bytes[i])
    ensures s.w.Some? ==> forall i: nat :: i < l.live.len && Covers(g.floor[i], g.bytes[i]) ==>
              Merged(l, s.w, s.m)[i] == g.bytes[i]
    ensures s.w.None? ==> Live(l, s.m) == g.bytes
  {
    hide ByteStands, Overlay, Covers, Merged;
    forall i: nat | i < l.live.len
      ensures (if g.marked[i] then Covers(g.floor[i], g.bytes[i]) else !g.cut) ==>
                Overlay(l, s.w, s.m)[i] == g.bytes[i]
      ensures Covers(g.floor[i], g.bytes[i]) ==> Covers(Overlay(l, s.w, s.m)[i], g.bytes[i])
      ensures s.w.Some? && Covers(g.floor[i], g.bytes[i]) ==> Merged(l, s.w, s.m)[i] == g.bytes[i]
      ensures s.w.None? ==> Live(l, s.m)[i] == g.bytes[i]
    {
      ReadableByte(l, s, g, i);
    }
  }

  /** Over every run, with writes and commits failing anywhere and torn in any way, the staged
      region is the flat array the host has written, as long as each write accepted and each
      commit that passed was sure: that is a condition on the calls and how they ended, not on
      what the device did. */
  lemma {:induction false} FailingRunIsFlatArray(l: Placed, sessions: seq<Session>, events: seq<Event>, g: Ledger)
    requires Fits(l, g) && Run(l, sessions, events) && Stands(l, sessions[0], g) && AllSure(l, g, events)
    ensures Stands(l, sessions[|events|], NotedAll(l, g, events))
    decreases |events|
  {
    hide Stands, Step, Sure, Noted;
    if events != [] {
      assert Step(l, sessions[0], events[0], sessions[1]);
      StepStands(l, sessions[0], g, events[0], sessions[1]);
      assert Run(l, sessions[1..], events[1..]);
      FailingRunIsFlatArray(l, sessions[1..], events[1..], Noted(l, g, events[0]));
    }
  }

  // ---------------------------------------------------------------- Sending a block again

  /** The bits every one of some blocks has. */
  function AllOf(ds: seq<HostBlock>): (r: HostBlock)
    decreases |ds|
  {
    if ds == [] then seq(BLOCK_BYTES, _ => ERASED_BYTE)
    else
      var rest := AllOf(ds[1..]);
      seq(BLOCK_BYTES, j requires 0 <= j < BLOCK_BYTES => Both(ds[0][j], rest[j]))
  }

  /** Sends of one block that failed one after another. */
  ghost predicate FailedSends(l: Placed, sessions: seq<Session>, offset: u32, ds: seq<HostBlock>) {
    && |sessions| == |ds| + 1
    && forall k :: 0 <= k < |ds| ==> WriteFailed(l, sessions[k], offset, ds[k], sessions[k + 1])
  }

  function AfterSends(l: Placed, g: Ledger, offset: u32, ds: seq<HostBlock>): (h: Ledger)
    requires Fits(l, g)
    ensures Fits(l, h)
    decreases |ds|
  {
    if ds == [] then g else AfterSends(l, Noted(l, g, Failed(offset, ds[0])), offset, ds[1..])
  }

  /** No byte of the block has been written since the last commit. */
  predicate Unmarked(l: Placed, g: Ledger, offset: u32)
    requires Fits(l, g)
  {
    forall i: nat | i < l.live.len && InBlock(offset, i) :: !g.marked[i]
  }

  lemma FailedFloor(l: Placed, g: Ledger, offset: u32, data: HostBlock)
    requires Fits(l, g)
    ensures var h := Noted(l, g, Failed(offset, data));
            && h.bytes == g.bytes && h.marked == g.marked && h.cut == g.cut
            && forall i :: 0 <= i < l.live.len && (!InBlock(offset, i) || Unmarked(l, g, offset)) ==>
                 h.floor[i] == if InBlock(offset, i) then Both(g.floor[i], data[i - offset]) else g.floor[i]
  {
    hide Both, Covers;
  }

  lemma {:induction false} FloorAfterSends(l: Placed, g: Ledger, offset: u32, ds: seq<HostBlock>)
    requires Fits(l, g)
    ensures var h := AfterSends(l, g, offset, ds);
            && h.bytes == g.bytes && h.marked == g.marked && h.cut == g.cut
            && forall i :: 0 <= i < l.live.len && (!InBlock(offset, i) || Unmarked(l, g, offset)) ==>
                 h.floor[i] == if InBlock(offset, i) then Both(g.floor[i], AllOf(ds)[i - offset]) else g.floor[i]
    decreases |ds|
  {
    hide Noted, Both;
    if ds == [] {
      forall i | 0 <= i < l.live.len ensures Both(g.floor[i], ERASED_BYTE) == g.floor[i] { BothErased(g.floor[i]); }
    } else {
      var e := Noted(l, g, Failed(offset, ds[0]));
      FailedFloor(l, g, offset, ds[0]);
      FloorAfterSends(l, e, offset, ds[1..]);
      var h := AfterSends(l, g, offset, ds);
      forall i | 0 <= i < l.live.len && InBlock(offset, i) && Unmarked(l, g, offset)
        ensures h.floor[i] == Both(g.floor[i], AllOf(ds)[i - offset])
      {
        BothOrder(g.floor[i], ds[0][i - offset], AllOf(ds[1..])[i - offset]);
        AllOfStep(ds, i - offset);
      }
    }
  }

  lemma AllOfStep(ds: seq<HostBlock>, j: nat)
    requires ds != [] && j < BLOCK_BYTES
    ensures AllOf(ds)[j] == Both(ds[0][j], AllOf(ds[1..])[j])
  {}

  lemma {:induction false} SendsStand(l: Placed, sessions: seq<Session>, offset: u32, ds: seq<HostBlock>, g: Ledger)
    requires Fits(l, g) && FailedSends(l, sessions, offset, ds) && Stands(l, sessions[0], g)
    ensures Stands(l, sessions[|ds|], AfterSends(l, g, offset, ds))
    decreases |ds|
  {
    hide Stands, WriteFailed, Noted;
    if ds != [] {
      StepStands(l, sessions[0], g, Failed(offset, ds[0]), sessions[1]);
      SendsStand(l, sessions[1..], offset, ds[1..], Noted(l, g, Failed(offset, ds[0])));
    }
  }

  /** Whether a write of `data` can be trusted after those failures. */
  predicate Trusted(l: Placed, s: Session, offset: u32, ds: seq<HostBlock>, data: HostBlock)
    requires offset < l.live.len
  {
    Written(l, s.w, offset) || forall j | 0 <= j < BLOCK_BYTES :: Covers(AllOf(ds)[j], data[j])
  }

  /** After any number of failed sends of a block, of any bytes, the one that is accepted is
      exact if it can be trusted, and leaves the session clean. */
  lemma TrustedWriteIsFlat(l: Placed, sessions: seq<Session>, offset: u32, ds: seq<HostBlock>, data: HostBlock,
                           t: Session)
    requires FailedSends(l, sessions, offset, ds) && WriteAccepted(l, sessions[|ds|], offset, data, t)
    requires var s := sessions[0]; IsImage(s.m) && Clean(l, s.w, s.m) && Trusted(l, s, offset, ds, data)
    ensures var s := sessions[0];
            && offset + BLOCK_BYTES <= l.live.len && IsImage(t.m)
            && Overlay(l, t.w, t.m) == WithBlock(Overlay(l, s.w, s.m), offset, data)
            && Clean(l, t.w, t.m)
  {
    var s := sessions[0];
    var g := Known(l, s);
    var e := Accepted(offset, data);
    BlockFits(l, offset);
    KnownStands(l, s);
    SendsStand(l, sessions, offset, ds, g);
    FloorAfterSends(l, g, offset, ds);
    var h := AfterSends(l, g, offset, ds);
    TrustedIsSure(l, s, offset, ds, data);
    StepStands(l, sessions[|ds|], h, e, t);
    StandingIsReadable(l, t, Noted(l, h, e));
    KnownAfter(l, s, offset, data, h, t);
  }

  lemma TrustedIsSure(l: Placed, s: Session, offset: u32, ds: seq<HostBlock>, data: HostBlock)
    requires IsImage(s.m) && IsBlock(l, offset) && Trusted(l, s, offset, ds, data)
    ensures Sure(l, AfterSends(l, Known(l, s), offset, ds), Accepted(offset, data))
  {
    FloorAfterSends(l, Known(l, s), offset, ds);
    hide AfterSends, Overlay, IsSet, AllOf;
    var h := AfterSends(l, Known(l, s), offset, ds);
    forall i: nat | i < l.live.len && InBlock(offset, i) ensures h.marked[i] == Written(l, s.w, offset) {
      SameBlock(l, s.w, offset, i);
    }
    forall i: nat | i < l.live.len && InBlock(offset, i) && !h.marked[i] ensures Covers(h.floor[i], data[i - offset]) {
      assert Covers(AllOf(ds)[i - offset], data[i - offset]);
    }
  }

  lemma KnownAfter(l: Placed, s: Session, offset: u32, data: HostBlock, h: Ledger, t: Session)
    requires IsImage(s.m) && IsBlock(l, offset) && offset + BLOCK_BYTES <= l.live.len && Fits(l, h)
    requires h.bytes == Known(l, s).bytes && h.marked == Known(l, s).marked && !h.cut
    requires forall i :: 0 <= i < l.live.len && !InBlock(offset, i) ==> h.floor[i] == Known(l, s).floor[i]
    requires Stands(l, t, Noted(l, h, Accepted(offset, data)))
    ensures Overlay(l, t.w, t.m) == WithBlock(Overlay(l, s.w, s.m), offset, data)
    ensures Clean(l, t.w, t.m)
  {
    hide Stands, Noted, Overlay, WithBlock, Written, Both, Covers, S;
    var n := Noted(l, h, Accepted(offset, data));
    StandsAt(l, t, n, 0);
    forall i: nat | i < l.live.len
      ensures Overlay(l, t.w, t.m)[i] == WithBlock(Overlay(l, s.w, s.m), offset, data)[i]
      ensures t.w.Some? && !Written(l, t.w, i) ==> S(l, t.m, i) == ERASED_BYTE
    {
      NotedAt(l, h, Accepted(offset, data), i);
      KnownByte(l, s, i);
      StandsAt(l, t, n, i);
      ReadableByte(l, t, n, i);
      WithBlockAt(Overlay(l, s.w, s.m), offset, data, i);
      CoversItself(n.bytes[i]);
      if t.w.Some? && !Written(l, t.w, i) { ErasedByte(l, t, n, i); }
    }
  }

  lemma KnownByte(l: Placed, s: Session, i: nat)
    requires IsImage(s.m) && i < l.live.len
    ensures Known(l, s).bytes[i] == Overlay(l, s.w, s.m)[i]
    ensures Known(l, s).marked[i] == Written(l, s.w, i)
    ensures Known(l, s).floor[i] == if Written(l, s.w, i) then Overlay(l, s.w, s.m)[i] else ERASED_BYTE
  {
    hide Written, S, L;
  }

  lemma CoversItself(a: byte)
    ensures Covers(a, a)
  {
    BareSmall(a, a);
  }

  /** Where no bit can have been lost of a block not written, it is erased in staging. */
  lemma ErasedByte(l: Placed, t: Session, n: Ledger, i: nat)
    requires IsImage(t.m) && Fits(l, n) && i < l.live.len && ByteStands(l, t, n, i)
    requires t.w.Some? && !n.marked[i] && n.floor[i] == ERASED_BYTE
    ensures S(l, t.m, i) == ERASED_BYTE
  {
    BaseIs(l, t, i);
    hide Written, S, Base;
    BareFull(Base(l, t, i));
  }

  lemma BareFull(a: byte)
    ensures a & 0xFF == 0xFF ==> a == 0xFF
  {}

  /** Sending a failed block again is exact, however many sends of it fail first, and whether or
      not it was written before in the session. */
  lemma RetriedWriteIsFlat(l: Placed, sessions: seq<Session>, offset: u32, ds: seq<HostBlock>, data: HostBlock,
                           t: Session)
    requires FailedSends(l, sessions, offset, ds) && WriteAccepted(l, sessions[|ds|], offset, data, t)
    requires IsImage(sessions[0].m) && Clean(l, sessions[0].w, sessions[0].m)
    requires forall k :: 0 <= k < |ds| ==> ds[k] == data
    ensures var s := sessions[0];
            && offset + BLOCK_BYTES <= l.live.len && IsImage(t.m)
            && Overlay(l, t.w, t.m) == WithBlock(Overlay(l, s.w, s.m), offset, data)
            && Clean(l, t.w, t.m)
  {
    AllOfOne(ds, data);
    hide WriteAccepted, FailedSends, Overlay, WithBlock, Clean;
    AcceptedIsBlock(l, sessions[|ds|], offset, data, t);
    TrustedWriteIsFlat(l, sessions, offset, ds, data, t);
  }

  lemma AcceptedIsBlock(l: Placed, s: Session, offset: u32, data: HostBlock, t: Session)
    requires WriteAccepted(l, s, offset, data, t)
    ensures IsBlock(l, offset)
  {}

  lemma {:induction false} AllOfOne(ds: seq<HostBlock>, data: HostBlock)
    requires forall k :: 0 <= k < |ds| ==> ds[k] == data
    ensures forall j :: 0 <= j < BLOCK_BYTES ==> Covers(AllOf(ds)[j], data[j])
    decreases |ds|
  {
    if ds != [] {
      AllOfOne(ds[1..], data);
      assert ds[0] == data;
    }
  }

  /** The worst run of failed sends: each programmed whole and reported failed. */
  function WorstSends(l: Placed, s: Session, offset: u32, ds: seq<HostBlock>): (r: seq<Session>)
    requires IsImage(s.m) && IsBlock(l, offset)
    ensures |r| == |ds| + 1 && r[0] == s && forall k :: 0 <= k < |r| ==> IsImage(r[k].m)
    decreases |ds|
  {
    if ds == [] then [s] else [s] + WorstSends(l, Stopped(l, s, offset, ds[0]), offset, ds[1..])
  }

  lemma {:induction false} WorstSendsFail(l: Placed, s: Session, offset: u32, ds: seq<HostBlock>)
    requires IsImage(s.m) && IsBlock(l, offset) && !Written(l, s.w, offset)
    ensures FailedSends(l, WorstSends(l, s, offset, ds), offset, ds)
    ensures var last := WorstSends(l, s, offset, ds)[|ds|];
            && (forall i: nat :: i < l.live.len ==> Written(l, last.w, i) == Written(l, s.w, i))
            && (forall i: nat :: i < l.live.len && InBlock(offset, i) ==>
                  Base(l, last, i) == Both(Base(l, s, i), AllOf(ds)[i - offset]))
    decreases |ds|
  {
    hide WriteFailed, Base, Programmed, Written, Both;
    if ds == [] {
      forall i: nat | i < l.live.len && InBlock(offset, i) ensures Base(l, s, i) == Both(Base(l, s, i), ERASED_BYTE) {
        BothErased(Base(l, s, i));
      }
    } else {
      var next := Stopped(l, s, offset, ds[0]);
      SameMarks(l, s.w, offset);
      StoppedIsFailure(l, s, offset, ds[0]);
      WorstSendsFail(l, next, offset, ds[1..]);
      var r := WorstSends(l, s, offset, ds);
      assert r[1..] == WorstSends(l, next, offset, ds[1..]);
      forall k | 0 <= k < |ds| ensures WriteFailed(l, r[k], offset, ds[k], r[k + 1]) {
        if k > 0 { assert r[k] == r[1..][k - 1] && r[k + 1] == r[1..][k] && ds[k] == ds[1..][k - 1]; }
      }
      assert r[|ds|] == r[1..][|ds| - 1];
      forall i: nat | i < l.live.len
        ensures Written(l, r[|ds|].w, i) == Written(l, s.w, i)
        ensures InBlock(offset, i) ==> Base(l, r[|ds|], i) == Both(Base(l, s, i), AllOf(ds)[i - offset])
      {
        SameMarks(l, s.w, i);
        StoppedBase(l, s, offset, ds[0], i);
        if InBlock(offset, i) {
          BothOrder(Base(l, s, i), ds[0][i - offset], AllOf(ds[1..])[i - offset]);
          AllOfStep(ds, i - offset);
        }
      }
    }
  }

  lemma BareErased(a: byte)
    ensures a & 0xFF == a
  {}

  lemma StoppedBase(l: Placed, s: Session, offset: u32, data: HostBlock, i: nat)
    requires IsImage(s.m) && IsBlock(l, offset) && i < l.live.len
    ensures InBlock(offset, i) ==> Base(l, Stopped(l, s, offset, data), i) == Both(Base(l, s, i), data[i - offset])
  {
    ProgrammedBytes(l, s, offset, data);
    hide Programmed;
  }

  /** The trust is exact: an accepted write of `data` gives the host its bytes back after every
      possible tearing of the sends that failed before it, if and only if the block was written
      before in the session or the bits common to all those sends cover `data`. */
  lemma AcceptedIsExactExactlyWhen(l: Placed, s: Session, offset: u32, ds: seq<HostBlock>, data: HostBlock)
    requires IsImage(s.m) && Clean(l, s.w, s.m) && IsBlock(l, offset) && offset + BLOCK_BYTES <= l.live.len
    ensures (forall sessions, t :: FailedSends(l, sessions, offset, ds) && sessions[0] == s
                                   && WriteAccepted(l, sessions[|ds|], offset, data, t) ==>
               IsImage(t.m) && Overlay(l, t.w, t.m) == WithBlock(Overlay(l, s.w, s.m), offset, data))
       <==> Trusted(l, s, offset, ds, data)
  {
    if Trusted(l, s, offset, ds, data) {
      forall sessions, t | FailedSends(l, sessions, offset, ds) && sessions[0] == s
                           && WriteAccepted(l, sessions[|ds|], offset, data, t)
        ensures IsImage(t.m) && Overlay(l, t.w, t.m) == WithBlock(Overlay(l, s.w, s.m), offset, data)
      {
        TrustedWriteIsFlat(l, sessions, offset, ds, data, t);
      }
    } else {
      var j :| 0 <= j < BLOCK_BYTES && !Covers(AllOf(ds)[j], data[j]);
      UntrustedIsSpoiled(l, s, offset, ds, data, j);
    }
  }

  lemma UntrustedIsSpoiled(l: Placed, s: Session, offset: u32, ds: seq<HostBlock>, data: HostBlock, j: nat)
    requires IsImage(s.m) && Clean(l, s.w, s.m) && IsBlock(l, offset) && offset + BLOCK_BYTES <= l.live.len
    requires !Written(l, s.w, offset) && j < BLOCK_BYTES && !Covers(AllOf(ds)[j], data[j])
    ensures var sessions := WorstSends(l, s, offset, ds);
            var t := Passed(l, sessions[|ds|], offset, data);
            && FailedSends(l, sessions, offset, ds) && sessions[0] == s
            && WriteAccepted(l, sessions[|ds|], offset, data, t)
            && Overlay(l, t.w, t.m) != WithBlock(Overlay(l, s.w, s.m), offset, data)
  {
    hide FailedSends, WorstSends, WriteAccepted, Base, Passed, Overlay, WithBlock, Both, Covers, Written, Clean, AllOf;
    WorstSendsFail(l, s, offset, ds);
    var i := offset + j;
    SameBlock(l, s.w, offset, i);
    CleanBase(l, s, i);
    SpoiledEnd(l, s, WorstSends(l, s, offset, ds)[|ds|], offset, AllOf(ds)[j], data, j);
  }

  lemma SpoiledEnd(l: Placed, s: Session, last: Session, offset: u32, all: byte, data: HostBlock, j: nat)
    requires IsImage(s.m) && IsImage(last.m) && IsBlock(l, offset) && offset + BLOCK_BYTES <= l.live.len
    requires j < BLOCK_BYTES && !Written(l, last.w, offset)
    requires Base(l, last, offset + j) == Both(ERASED_BYTE, all) && !Covers(all, data[j])
    ensures var t := Passed(l, last, offset, data);
            && WriteAccepted(l, last, offset, data, t)
            && Overlay(l, t.w, t.m) != WithBlock(Overlay(l, s.w, s.m), offset, data)
  {
    hide WriteAccepted, Base, Passed, Overlay, WithBlock, Both, Covers, Written;
    PassedIsAcceptance(l, last, offset, data);
    SpoiledByte(l, last, offset, all, data, Passed(l, last, offset, data), j);
    WithBlockAt(Overlay(l, s.w, s.m), offset, data, offset + j);
  }

  lemma SpoiledByte(l: Placed, last: Session, offset: u32, all: byte, data: HostBlock, t: Session, j: nat)
    requires WriteAccepted(l, last, offset, data, t) && j < BLOCK_BYTES && offset + BLOCK_BYTES <= l.live.len
    requires IsImage(last.m) && Base(l, last, offset + j) == Both(ERASED_BYTE, all) && !Covers(all, data[j])
    ensures IsImage(t.m) && Overlay(l, t.w, t.m)[offset + j] != data[j]
  {
    hide WriteAccepted, Overlay, Base, Both, Covers;
    AcceptedNamed(l, last, offset, data, t, offset + j);
    Spoiled(all, data[j]);
  }

  lemma AcceptedNamed(l: Placed, s: Session, offset: u32, data: HostBlock, t: Session, i: nat)
    requires WriteAccepted(l, s, offset, data, t) && i < l.live.len && InBlock(offset, i)
    ensures IsImage(s.m) && IsImage(t.m) && Overlay(l, t.w, t.m)[i] == Both(Base(l, s, i), data[i - offset])
  {
    AcceptedOverlay(l, s, offset, data, t, i);
  }

  lemma Spoiled(all: byte, data: byte)
    requires !Covers(all, data)
    ensures Both(Both(ERASED_BYTE, all), data) != data
  {
    BareSmall(all, data);
  }

  // ---------------------------------------------------------------- Two cases in point

  function ErasedDevice(): Session { Session(None, seq(ADDRESS_SPACE, _ => ERASED_BYTE)) }

  function Filled(b: byte): HostBlock { seq(BLOCK_BYTES, _ => b) }

  /** A first write of eight zero bytes over an erased device, failed after they were
      programmed. */
  function StoppedZeroes(l: Placed): Session { Stopped(l, ErasedDevice(), 0, Filled(0)) }

  /** A write the bus failed can leave a block that is not marked short of bits in staging, and
      committing then loses those bits of the live block. */
  lemma FailedWriteCanCostABlock(l: Placed)
    ensures var s, t := ErasedDevice(), StoppedZeroes(l);
            && WriteFailed(l, s, 0, Filled(0), t)
            && Overlay(l, t.w, t.m) == Overlay(l, s.w, s.m)
            && Merged(l, t.w, t.m) != Overlay(l, t.w, t.m)
  {
    var s, t := ErasedDevice(), StoppedZeroes(l);
    StoppedIsFailure(l, s, 0, Filled(0));
    forall i: nat | i < l.live.len ensures Overlay(l, t.w, t.m)[i] == Overlay(l, s.w, s.m)[i] {
      FailedWriteKeepsOverlay(l, s, 0, Filled(0), t, i);
    }
    hide WriteFailed, Stopped, Overlay, Merged;
    StoppedCosts(l, s, 0, Filled(0), 0);
    OverlayAt(l, t.w, t.m, 0);
    MergedAt(l, t.w, t.m, 0);
  }

  lemma MergedAt(l: Placed, w: Option<Bitmap>, m: Image, i: nat)
    requires IsImage(m) && i < l.live.len
    ensures Merged(l, w, m)[i] == M(l, w, m, i)
  {}

  /** Sending other bytes instead is worse: the write is accepted, and what is read back is
      neither the bytes sent now nor the bytes there before. */
  lemma OtherBytesCanBeSpoiled(l: Placed)
    ensures var s, failed := ErasedDevice(), StoppedZeroes(l);
            var t := Passed(l, failed, 0, Filled(0xF0));
            && WriteFailed(l, s, 0, Filled(0), failed)
            && WriteAccepted(l, failed, 0, Filled(0xF0), t)
            && BLOCK_BYTES <= l.live.len
            && Overlay(l, t.w, t.m) != WithBlock(Overlay(l, failed.w, failed.m), 0, Filled(0xF0))
            && Overlay(l, t.w, t.m)[0] == 0 && Overlay(l, failed.w, failed.m)[0] == ERASED_BYTE
  {
    var s, failed := ErasedDevice(), StoppedZeroes(l);
    var t := Passed(l, failed, 0, Filled(0xF0));
    BlockFits(l, 0);
    StoppedIsFailure(l, s, 0, Filled(0));
    FailedWriteKeepsOverlay(l, s, 0, Filled(0), failed, 0);
    OverlayAt(l, s.w, s.m, 0);
    SameMarks(l, s.w, 0);
    StoppedBase(l, s, 0, Filled(0), 0);
    PassedIsAcceptance(l, failed, 0, Filled(0xF0));
    hide WriteFailed, WriteAccepted, Stopped, Passed, Overlay, WithBlock, Base;
    AcceptedOverlay(l, failed, 0, Filled(0xF0), t, 0);
    WithBlockAt(Overlay(l, failed.w, failed.m), 0, Filled(0xF0), 0);
  }
}
