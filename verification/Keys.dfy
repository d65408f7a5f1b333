/** Debouncing one key, and what the edges say of the whole history of samples. */
module Keys {
  import opened Wrappers

  const DEBOUNCE_MILLISECONDS: u32 := 20

  datatype Key = Key(code: u8)
  datatype Sample = NoKey | Down(key: Key) | Invalid
  datatype Edge = NoEdge | Pressed(key: Key) | Released(key: Key)

  /** A sample and the time it was taken at. */
  datatype Reading = Reading(at: u32, sample: Sample)

  datatype State = State(candidate: Option<Key>, since: u32, stable: Option<Key>, last: Option<u32>)

  function Initial(): State { State(None, 0, None, None) }

  function Observed(s: Sample): Option<Key> { if s.Down? then Some(s.key) else None }

  function Updated(d: State, r: Reading): (State, Edge) {
    if (d.last.Some? && r.at < d.last.value) || r.sample.Invalid? then (State(None, r.at, None, Some(r.at)), NoEdge)
    else
      var seen := Observed(r.sample);
      var e := d.(last := Some(r.at));
      if seen != d.candidate then (e.(candidate := seen, since := r.at), NoEdge)
      else if seen == d.stable || r.at - d.since < DEBOUNCE_MILLISECONDS then (e, NoEdge)
      else
        (e.(stable := seen),
         if seen.Some? then Pressed(seen.value) else if d.stable.Some? then Released(d.stable.value) else NoEdge)
  }

  // ---------------------------------------------------------------- Histories

  function After(h: seq<Reading>): State {
    if h == [] then Initial() else Updated(After(h[..|h| - 1]), h[|h| - 1]).0
  }

  /** The edge emitted by one sample of a history. */
  function EdgeAt(h: seq<Reading>, i: nat): Edge
    requires i < |h|
  {
    Updated(After(h[..i]), h[i]).1
  }

  /** A sample that is valid and does not go back in time; any other resets. */
  predicate Accepted(h: seq<Reading>, i: nat)
    requires i < |h|
  {
    !h[i].sample.Invalid? && (i > 0 ==> h[i].at >= h[i - 1].at)
  }

  /** From `j` on, nothing but accepted samples that read `seen`. */
  ghost predicate Unbroken(h: seq<Reading>, j: nat, seen: Option<Key>) {
    j < |h| && forall i :: j <= i < |h| ==> Accepted(h, i) && Observed(h[i].sample) == seen
  }

  /** The history ends in an unbroken run of `seen` at least the debounce time long. */
  ghost predicate Settled(h: seq<Reading>, seen: Option<Key>) {
    exists j: nat :: Unbroken(h, j, seen) && h[|h| - 1].at - h[j].at >= DEBOUNCE_MILLISECONDS
  }

  /** The latest edge pressed `k`, and nothing has reset the state since. */
  ghost predicate Holding(h: seq<Reading>, k: Key) {
    exists e: nat :: LastPressed(h, e, k)
  }

  ghost predicate LastPressed(h: seq<Reading>, e: nat, k: Key) {
    e < |h| && EdgeAt(h, e) == Pressed(k) && forall i :: e < i < |h| ==> Accepted(h, i) && EdgeAt(h, i) == NoEdge
  }

  /** Where the unbroken run at the end of a history starts. */
  function RunStart(h: seq<Reading>): (j: nat)
    requires h != []
    ensures j < |h|
  {
    var n := |h| - 1;
    if n == 0 || !Accepted(h, n - 1) || Observed(h[n - 1].sample) != Observed(h[n].sample) then n else RunStart(h[..n])
  }

  lemma {:induction false} RunStartIsUnbroken(h: seq<Reading>)
    requires h != [] && Accepted(h, |h| - 1)
    ensures Unbroken(h, RunStart(h), Observed(h[|h| - 1].sample))
    ensures forall i :: RunStart(h) <= i < |h| ==> h[RunStart(h)].at <= h[i].at
    decreases |h|
  {
    var n := |h| - 1;
    var before := h[..n];
    if RunStart(h) != n {
      RunStartIsUnbroken(before);
      forall i | RunStart(h) <= i < |h| ensures Accepted(h, i) && Observed(h[i].sample) == Observed(h[n].sample) {
        if i < n { assert before[i] == h[i] && Accepted(before, i); }
      }
      assert before[n - 1] == h[n - 1];
      forall i | RunStart(h) <= i < |h| ensures h[RunStart(h)].at <= h[i].at {
        if i < n { assert before[i] == h[i]; }
      }
    }
  }

  lemma {:induction false} RunStartIsFirst(h: seq<Reading>, j: nat, seen: Option<Key>)
    requires Unbroken(h, j, seen)
    ensures RunStart(h) <= j
    decreases |h|
  {
    var n := |h| - 1;
    if j < n {
      assert Accepted(h, n - 1) && Observed(h[n - 1].sample) == seen && Observed(h[n].sample) == seen;
      forall i | j <= i < n ensures Accepted(h[..n], i) && Observed(h[..n][i].sample) == seen {
        assert Accepted(h, i);
      }
      RunStartIsFirst(h[..n], j, seen);
    }
  }

  /** What the fields say of the history: the candidate is what the last sample read, counted
      from the start of its run wherever an edge could come of it. */
  lemma {:induction false} FieldsAreHistory(h: seq<Reading>)
    requires h != []
    ensures var d := After(h);
            && d.last == Some(h[|h| - 1].at)
            && (if Accepted(h, |h| - 1)
                then d.candidate == Observed(h[|h| - 1].sample)
                     && (d.candidate.Some? || d.stable.Some? ==> d.since == h[RunStart(h)].at)
                else d.candidate.None? && d.stable.None?)
    decreases |h|
  {
    var n := |h| - 1;
    var before := h[..n];
    if n > 0 {
      FieldsAreHistory(before);
      assert before[n - 1] == h[n - 1];
      assert Accepted(before, n - 1) == Accepted(h, n - 1);
    }
  }

  /** A settled run has already been the candidate for the whole debounce time. */
  lemma SettledExactlyWhen(h: seq<Reading>, seen: Option<Key>)
    requires h != [] && Accepted(h, |h| - 1) && Observed(h[|h| - 1].sample) == seen
    ensures Settled(h, seen) <==> h[|h| - 1].at - h[RunStart(h)].at >= DEBOUNCE_MILLISECONDS
  {
    RunStartIsUnbroken(h);
    if Settled(h, seen) {
      var j: nat :| Unbroken(h, j, seen) && h[|h| - 1].at - h[j].at >= DEBOUNCE_MILLISECONDS;
      RunStartIsFirst(h, j, seen);
    }
  }

  lemma SettledEndsAccepted(h: seq<Reading>, seen: Option<Key>)
    requires Settled(h, seen)
    ensures h != [] && Accepted(h, |h| - 1) && Observed(h[|h| - 1].sample) == seen
  {
    var j: nat :| Unbroken(h, j, seen) && h[|h| - 1].at - h[j].at >= DEBOUNCE_MILLISECONDS;
    assert j <= |h| - 1;
  }

  /** The last sample emits an edge exactly when it completes a settled run of something other
      than the stable key, or than no key. */
  lemma EdgeExactlyWhen(h: seq<Reading>)
    requires h != []
    ensures var n, stable := |h| - 1, After(h[..|h| - 1]).stable;
            var seen := Observed(h[n].sample);
            EdgeAt(h, n) == if Settled(h, seen) && seen != stable
                            then (if seen.Some? then Pressed(seen.value) else Released(stable.value))
                            else NoEdge
  {
    var n := |h| - 1;
    var before := h[..n];
    var seen := Observed(h[n].sample);
    hide Settled;
    if Accepted(h, n) {
      SettledExactlyWhen(h, seen);
      if n > 0 {
        FieldsAreHistory(before);
        assert before[n - 1] == h[n - 1];
        assert Accepted(before, n - 1) == Accepted(h, n - 1);
      }
    } else {
      if Settled(h, seen) { SettledEndsAccepted(h, seen); }
      if n > 0 {
        FieldsAreHistory(before);
        assert before[n - 1] == h[n - 1];
      }
    }
  }

  lemma EdgesOfPrefix(h: seq<Reading>, i: nat)
    requires h != [] && i < |h| - 1
    ensures EdgeAt(h[..|h| - 1], i) == EdgeAt(h, i)
    ensures Accepted(h[..|h| - 1], i) == Accepted(h, i)
  {
    assert h[..|h| - 1][..i] == h[..i];
  }

  lemma StableSteps(h: seq<Reading>, k: Key)
    requires h != []
    ensures var n := |h| - 1;
            After(h).stable == Some(k) <==>
              EdgeAt(h, n) == Pressed(k)
              || (Accepted(h, n) && EdgeAt(h, n) == NoEdge && After(h[..n]).stable == Some(k))
  {
    hide Updated, Observed;
    var n := |h| - 1;
    LastIsLatest(h[..n]);
    if n > 0 { assert h[..n][n - 1] == h[n - 1]; }
    UpdatedStable(After(h[..n]), h[n], k);
  }

  lemma LastIsLatest(h: seq<Reading>)
    ensures After(h).last == if h == [] then None else Some(h[|h| - 1].at)
  {}

  lemma UpdatedStable(d: State, r: Reading, k: Key)
    ensures Updated(d, r).0.stable == Some(k) <==>
              || Updated(d, r).1 == Pressed(k)
              || (!((d.last.Some? && r.at < d.last.value) || r.sample.Invalid?)
                  && Updated(d, r).1 == NoEdge && d.stable == Some(k))
  {}

  /** A key is held exactly when the latest edge pressed it and nothing has reset since. */
  lemma {:induction false} HeldExactlyWhen(h: seq<Reading>, k: Key)
    ensures After(h).stable == Some(k) <==> Holding(h, k)
    decreases |h|
  {
    hide After, EdgeAt, Accepted;
    if h != [] {
      var n := |h| - 1;
      var before := h[..n];
      HeldExactlyWhen(before, k);
      StableSteps(h, k);
      forall i | 0 <= i < n ensures EdgeAt(before, i) == EdgeAt(h, i) && Accepted(before, i) == Accepted(h, i) {
        EdgesOfPrefix(h, i);
      }
      HoldingSteps(h, k);
    } else {
      NothingHeldYet(k);
    }
  }

  lemma NothingHeldYet(k: Key)
    ensures After([]).stable != Some(k) && !Holding([], k)
  {}

  lemma HoldingSteps(h: seq<Reading>, k: Key)
    requires h != []
    requires forall i :: 0 <= i < |h| - 1 ==> EdgeAt(h[..|h| - 1], i) == EdgeAt(h, i)
                                              && Accepted(h[..|h| - 1], i) == Accepted(h, i)
    ensures var n := |h| - 1;
            Holding(h, k) <==> EdgeAt(h, n) == Pressed(k)
                               || (Accepted(h, n) && EdgeAt(h, n) == NoEdge && Holding(h[..n], k))
  {
    hide After, EdgeAt, Accepted;
    var n := |h| - 1;
    var before := h[..n];
    if Holding(h, k) {
      var e: nat :| LastPressed(h, e, k);
      if e < n {
        forall i | e < i < n ensures Accepted(before, i) && EdgeAt(before, i) == NoEdge {
          assert Accepted(h, i) && EdgeAt(h, i) == NoEdge;
        }
        assert LastPressed(before, e, k);
      }
    }
    if EdgeAt(h, n) == Pressed(k) {
      assert LastPressed(h, n, k);
    }
    if EdgeAt(h, n) != Pressed(k) && Accepted(h, n) && EdgeAt(h, n) == NoEdge && Holding(before, k) {
      var e: nat :| LastPressed(before, e, k);
      forall i | e < i < |h| ensures Accepted(h, i) && EdgeAt(h, i) == NoEdge {
        if i < n { assert Accepted(before, i) && EdgeAt(before, i) == NoEdge; }
      }
      assert LastPressed(h, e, k);
    }
  }

  /** A press is emitted exactly when the history ends in 20 ms or more of nothing but that
      key, in order of time, and the key is not held already: so no key is pressed twice while
      it stays held. */
  lemma PressedExactlyWhen(h: seq<Reading>, k: Key)
    requires h != []
    ensures EdgeAt(h, |h| - 1) == Pressed(k) <==> Settled(h, Some(k)) && !Holding(h[..|h| - 1], k)
  {
    var n := |h| - 1;
    EdgeExactlyWhen(h);
    HeldExactlyWhen(h[..n], k);
    if Settled(h, Some(k)) { SettledEndsAccepted(h, Some(k)); }
    hide Settled, Holding, After, EdgeAt;
  }

  /** A release is emitted exactly when the history ends in 20 ms or more of no key, in order of
      time, and the latest edge pressed that key with no reset since. */
  lemma ReleasedExactlyWhen(h: seq<Reading>, k: Key)
    requires h != []
    ensures EdgeAt(h, |h| - 1) == Released(k) <==> Settled(h, None) && Holding(h[..|h| - 1], k)
  {
    var n := |h| - 1;
    EdgeExactlyWhen(h);
    HeldExactlyWhen(h[..n], k);
    if Settled(h, None) { SettledEndsAccepted(h, None); }
    hide Settled, Holding, After, EdgeAt;
  }

  // ---------------------------------------------------------------- In place

  class Debouncer {
    var candidate: Option<Key>
    var since: u32
    var stable: Option<Key>
    var last: Option<u32>
    ghost var history: seq<Reading>

    ghost predicate Valid()
      reads this
    {
      State(candidate, since, stable, last) == After(history)
    }

    constructor ()
      ensures Valid() && history == []
    {
      candidate, since, stable, last, history := None, 0, None, None, [];
    }

    /** Applies one sample; the edge is the history's. */
    method Update(at: u32, sample: Sample) returns (edge: Edge)
      requires Valid()
      modifies this
      ensures Valid() && history == old(history) + [Reading(at, sample)]
      ensures edge == EdgeAt(history, |history| - 1)
    {
      history := history + [Reading(at, sample)];
      assert history[..|history| - 1] == old(history);
      if (last.Some? && at < last.value) || sample == Invalid {
        Reset(at);
        return NoEdge;
      }
      last := Some(at);
      var seen := if sample.Down? then Some(sample.key) else None;
      if seen != candidate {
        candidate, since := seen, at;
        return NoEdge;
      }
      var elapsed := if at >= since then at - since else 0;
      if seen == stable || elapsed < DEBOUNCE_MILLISECONDS { return NoEdge; }
      var previous := stable;
      stable := seen;
      match (previous, seen)
      case (_, Some(key)) => return Pressed(key);
      case (Some(key), None) => return Released(key);
      case (None, None) => return NoEdge;
    }

    /** Forgets the candidate and any key held. */
    method Reset(at: u32)
      modifies `candidate, `since, `stable, `last
      ensures State(candidate, since, stable, last) == State(None, at, None, Some(at))
    {
      candidate, since, stable, last := None, at, None, Some(at);
    }
  }
}
