/** Counting and walking the marked places of a row: which of them come before an index,
    which is the n-th, and which comes next around the end. */
module Marks {
  import opened Wrappers

  /** How many places below `n` are marked. */
  function Count(marks: seq<bool>, n: nat): (c: nat)
    requires n <= |marks|
    ensures c <= n
  {
    if n == 0 then 0 else Count(marks, n - 1) + if marks[n - 1] then 1 else 0
  }

  function Total(marks: seq<bool>): nat { Count(marks, |marks|) }

  /** The `k`-th marked place at or after `start`. */
  function NthFrom(marks: seq<bool>, start: nat, k: nat): (r: Option<nat>)
    requires start <= |marks|
    ensures r.Some? ==> start <= r.value < |marks| && marks[r.value]
    decreases |marks| - start
  {
    if start == |marks| then None
    else if !marks[start] then NthFrom(marks, start + 1, k)
    else if k == 0 then Some(start) else NthFrom(marks, start + 1, k - 1)
  }

  function Nth(marks: seq<bool>, k: nat): (r: Option<nat>)
    ensures r.Some? ==> r.value < |marks| && marks[r.value]
  {
    NthFrom(marks, 0, k)
  }

  lemma {:induction false} CountGrows(marks: seq<bool>, a: nat, b: nat)
    requires a <= b <= |marks|
    ensures Count(marks, a) <= Count(marks, b) <= Count(marks, a) + (b - a)
    ensures a < b && marks[a] ==> Count(marks, a) < Count(marks, b)
    ensures (forall i :: a <= i < b ==> !marks[i]) ==> Count(marks, b) == Count(marks, a)
    decreases b
  {
    if a < b { CountGrows(marks, a, b - 1); }
  }

  lemma {:induction false} NthFromCounts(marks: seq<bool>, start: nat, k: nat)
    requires start <= |marks|
    ensures var r := NthFrom(marks, start, k);
            && (r.Some? <==> Count(marks, start) + k < Total(marks))
            && (r.Some? ==> Count(marks, r.value) == Count(marks, start) + k)
    decreases |marks| - start
  {
    if start < |marks| {
      CountGrows(marks, start + 1, |marks|);
      if !marks[start] { NthFromCounts(marks, start + 1, k); }
      else if k > 0 { NthFromCounts(marks, start + 1, k - 1); }
    }
  }

  /** Two marked places with the same count before them are one place. */
  lemma CountIsInjective(marks: seq<bool>, i: nat, j: nat)
    requires i < |marks| && j < |marks| && marks[i] && marks[j] && Count(marks, i) == Count(marks, j)
    ensures i == j
  {
    if i < j { CountGrows(marks, i, j); } else if j < i { CountGrows(marks, j, i); }
  }

  /** Counting and selecting undo each other: the `k`-th marked place is the marked place
      with `k` before it, and there is one for exactly the `k` below the total. */
  lemma NthUndoesCount(marks: seq<bool>, k: nat, i: nat)
    ensures Nth(marks, k).Some? <==> k < Total(marks)
    ensures Nth(marks, k) == Some(i) <==> i < |marks| && marks[i] && Count(marks, i) == k
  {
    NthFromCounts(marks, 0, k);
    if i < |marks| && marks[i] && Count(marks, i) == k {
      CountGrows(marks, i, |marks|);
      CountIsInjective(marks, i, Nth(marks, k).value);
    }
  }

  // ---------------------------------------------------------------- Walking around

  /** Where `d` steps from `from` lead, wrapping around. */
  function Ahead(n: nat, from: nat, forward: bool, d: nat): (i: nat)
    requires from < n && d <= n
    ensures i < n
  {
    if forward then (if from + d < n then from + d else from + d - n)
    else (if d <= from then from - d else from + n - d)
  }

  /** `r` is the nearest marked place one or more steps on, at the latest `from` itself, or
      nothing because nothing is marked. */
  ghost predicate IsNearest(marks: seq<bool>, from: nat, forward: bool, r: Option<nat>)
    requires from < |marks|
  {
    match r
    case None => forall d :: 1 <= d <= |marks| ==> !marks[Ahead(|marks|, from, forward, d)]
    case Some(i) =>
      exists d :: 1 <= d <= |marks| && Ahead(|marks|, from, forward, d) == i && marks[i]
        && forall e :: 1 <= e < d ==> !marks[Ahead(|marks|, from, forward, e)]
  }

  /** The nearest marked place by its rank: one more than at or before `from`, or one less
      than before it, around the total. */
  function Next(marks: seq<bool>, from: nat, forward: bool): (r: Option<nat>)
    requires from < |marks|
    ensures r.Some? ==> r.value < |marks| && marks[r.value]
  {
    var total := Total(marks);
    if total == 0 then None
    else if forward then
      var rank := Count(marks, from + 1);
      Nth(marks, if rank == total then 0 else rank)
    else
      var rank := Count(marks, from);
      Nth(marks, if rank == 0 then total - 1 else rank - 1)
  }

  lemma NoneMarked(marks: seq<bool>, from: nat, forward: bool)
    requires from < |marks| && IsNearest(marks, from, forward, None)
    ensures Total(marks) == 0
  {
    var n := |marks|;
    forall i | 0 <= i < n ensures !marks[i] {
      var d := if forward then (if i > from then i - from else i + n - from)
               else (if i < from then from - i else from + n - i);
      assert Ahead(n, from, forward, d) == i;
    }
    CountGrows(marks, 0, n);
  }

  /** Walking up to `i` passes no marked place, so the counts on the way do not move. */
  lemma WalkedForward(marks: seq<bool>, from: nat, d: nat)
    requires from < |marks| && 1 <= d <= |marks|
    requires forall e :: 1 <= e < d ==> !marks[Ahead(|marks|, from, true, e)]
    ensures var i := Ahead(|marks|, from, true, d);
            if from + d < |marks| then Count(marks, i) == Count(marks, from + 1)
            else Count(marks, i) == 0 && Count(marks, from + 1) == Total(marks)
  {
    var n := |marks|;
    var i := Ahead(n, from, true, d);
    var end := if from + d < n then i else n;
    forall j | from + 1 <= j < end ensures !marks[j] {
      assert Ahead(n, from, true, j - from) == j;
    }
    CountGrows(marks, from + 1, end);
    if from + d >= n {
      forall j | 0 <= j < i ensures !marks[j] {
        assert Ahead(n, from, true, j + n - from) == j;
      }
      CountGrows(marks, 0, i);
    }
  }

  lemma WalkedBack(marks: seq<bool>, from: nat, d: nat)
    requires from < |marks| && 1 <= d <= |marks|
    requires forall e :: 1 <= e < d ==> !marks[Ahead(|marks|, from, false, e)]
    ensures var i := Ahead(|marks|, from, false, d);
            if d <= from then Count(marks, i + 1) == Count(marks, from)
            else Count(marks, i + 1) == Total(marks) && Count(marks, from) == 0
  {
    var n := |marks|;
    var i := Ahead(n, from, false, d);
    var start := if d <= from then i + 1 else 0;
    forall j | start <= j < from ensures !marks[j] {
      assert Ahead(n, from, false, from - j) == j;
    }
    CountGrows(marks, start, from);
    if d > from {
      forall j | i + 1 <= j < n ensures !marks[j] {
        assert Ahead(n, from, false, from + n - j) == j;
      }
      CountGrows(marks, i + 1, n);
    }
  }

  /** The rank arithmetic finds exactly the nearest marked place. */
  lemma NearestIsNext(marks: seq<bool>, from: nat, forward: bool, r: Option<nat>)
    requires from < |marks| && IsNearest(marks, from, forward, r)
    ensures r == Next(marks, from, forward)
  {
    if r.None? {
      NoneMarked(marks, from, forward);
    } else {
      var i := r.value;
      var d :| 1 <= d <= |marks| && Ahead(|marks|, from, forward, d) == i && marks[i]
               && forall e :: 1 <= e < d ==> !marks[Ahead(|marks|, from, forward, e)];
      CountGrows(marks, i, |marks|);
      NthUndoesCount(marks, Count(marks, i), i);
      if forward {
        WalkedForward(marks, from, d);
      } else {
        WalkedBack(marks, from, d);
        CountGrows(marks, i + 1, |marks|);
        assert Count(marks, i + 1) == Count(marks, i) + 1;
      }
    }
  }

  /** Stepping back undoes stepping on, from any marked place and in either direction. */
  lemma BackUndoesOn(marks: seq<bool>, i: nat, forward: bool)
    requires i < |marks| && marks[i]
    ensures Next(marks, i, forward).Some?
    ensures Next(marks, Next(marks, i, forward).value, !forward) == Some(i)
  {
    CountGrows(marks, i, |marks|);
    CountGrows(marks, i + 1, |marks|);
    NthUndoesCount(marks, Count(marks, i), i);
    NextRank(marks, i, forward);
    var j := Next(marks, i, forward).value;
    NextRank(marks, j, !forward);
    CountGrows(marks, j, |marks|);
    var k := Next(marks, j, !forward).value;
    CountIsInjective(marks, i, k);
  }

  /** One step from a marked place moves the rank by one around the total. */
  lemma NextRank(marks: seq<bool>, i: nat, forward: bool)
    requires i < |marks| && marks[i]
    ensures Next(marks, i, forward).Some? && Count(marks, i) < Total(marks)
    ensures var rank, total, j := Count(marks, i), Total(marks), Next(marks, i, forward).value;
            Count(marks, j) == if forward then (if rank + 1 == total then 0 else rank + 1)
                               else (if rank == 0 then total - 1 else rank - 1)
  {
    CountGrows(marks, i, |marks|);
    CountGrows(marks, i + 1, |marks|);
    var rank, total := Count(marks, i), Total(marks);
    var k := if forward then (if rank + 1 == total then 0 else rank + 1)
             else (if rank == 0 then total - 1 else rank - 1);
    NthUndoesCount(marks, k, 0);
    NthUndoesCount(marks, k, Nth(marks, k).value);
  }

  /** `j` is the first marked place past `from`, up or down the row, starting again at the other
      end where there is none. */
  ghost predicate IsFirstPast(marks: seq<bool>, from: nat, forward: bool, j: nat) {
    && j < |marks| && marks[j]
    && if forward then
         if j > from then forall k :: from < k < j ==> !marks[k]
         else (forall k :: from < k < |marks| ==> !marks[k]) && forall k :: 0 <= k < j ==> !marks[k]
       else
         if j < from then forall k :: j < k < from ==> k < |marks| && !marks[k]
         else (forall k :: 0 <= k < from ==> k < |marks| && !marks[k]) && forall k :: j < k < |marks| ==> !marks[k]
  }

  /** Every place between two with one count between them is unmarked. */
  lemma SameCount(marks: seq<bool>, a: nat, b: nat)
    requires a <= b <= |marks| && Count(marks, a) == Count(marks, b)
    ensures forall k :: a <= k < b ==> !marks[k]
  {
    forall k | a <= k < b ensures !marks[k] {
      CountGrows(marks, a, k);
      CountGrows(marks, k, k + 1);
      CountGrows(marks, k + 1, b);
    }
  }

  /** The rank arithmetic walks the row in order, and finds nothing exactly where nothing is
      marked. */
  lemma NextInOrder(marks: seq<bool>, from: nat, forward: bool)
    requires from < |marks|
    ensures var r := Next(marks, from, forward);
            && (r.Some? <==> exists i :: 0 <= i < |marks| && marks[i])
            && (r.Some? ==> IsFirstPast(marks, from, forward, r.value))
  {
    hide IsFirstPast;
    if Total(marks) == 0 {
      SameCount(marks, 0, |marks|);
    } else {
      if forward { NextUp(marks, from); } else { NextDown(marks, from); }
      assert marks[Next(marks, from, forward).value];
    }
  }

  lemma NextUp(marks: seq<bool>, from: nat)
    requires from < |marks| && Total(marks) > 0
    ensures var r := Next(marks, from, true); r.Some? && IsFirstPast(marks, from, true, r.value)
  {
    var rank, total := Count(marks, from + 1), Total(marks);
    var k := if rank == total then 0 else rank;
    CountGrows(marks, from + 1, |marks|);
    NthUndoesCount(marks, k, 0);
    var j := Nth(marks, k).value;
    NthUndoesCount(marks, k, j);
    CountGrows(marks, j, j + 1);
    if rank == total {
      SameCount(marks, from + 1, |marks|);
      SameCount(marks, 0, j);
    } else if j > from {
      SameCount(marks, from + 1, j);
    } else {
      CountGrows(marks, j + 1, from + 1);
      assert false;
    }
  }

  lemma NextDown(marks: seq<bool>, from: nat)
    requires from < |marks| && Total(marks) > 0
    ensures var r := Next(marks, from, false); r.Some? && IsFirstPast(marks, from, false, r.value)
  {
    var rank, total := Count(marks, from), Total(marks);
    var k := if rank == 0 then total - 1 else rank - 1;
    CountGrows(marks, from, |marks|);
    NthUndoesCount(marks, k, 0);
    var j := Nth(marks, k).value;
    NthUndoesCount(marks, k, j);
    CountGrows(marks, j, j + 1);
    assert Count(marks, j + 1) == k + 1;
    if rank == 0 {
      SameCount(marks, 0, from);
      SameCount(marks, j + 1, |marks|);
    } else if j < from {
      SameCount(marks, j + 1, from);
    } else {
      CountGrows(marks, from, j);
      assert false;
    }
  }

  // ---------------------------------------------------------------- Round robin

  /** Where `k` steps on from a marked place lead. */
  function Turn(marks: seq<bool>, i: nat, k: nat): (j: nat)
    requires i < |marks| && marks[i]
    ensures j < |marks| && marks[j]
  {
    if k == 0 then i
    else
      var at := Turn(marks, i, k - 1);
      NextRank(marks, at, true);
      Next(marks, at, true).value
  }

  lemma {:induction false} TurnRank(marks: seq<bool>, i: nat, k: nat)
    requires i < |marks| && marks[i] && k <= Total(marks)
    ensures var rank, total := Count(marks, i), Total(marks);
            rank < total
            && Count(marks, Turn(marks, i, k)) == if rank + k < total then rank + k else rank + k - total
    decreases k
  {
    NextRank(marks, i, true);
    if k > 0 {
      TurnRank(marks, i, k - 1);
      NextRank(marks, Turn(marks, i, k - 1), true);
    }
  }

  /** Going round visits every marked place exactly once before it is back at the start. */
  lemma TurnsVisitEachOnce(marks: seq<bool>, i: nat, j: nat)
    requires i < |marks| && marks[i] && j < |marks| && marks[j]
    ensures Turn(marks, i, Total(marks)) == i
    ensures exists k :: 0 <= k < Total(marks) && Turn(marks, i, k) == j
    ensures forall k, l :: 0 <= k < l < Total(marks) ==> Turn(marks, i, k) != Turn(marks, i, l)
  {
    var total := Total(marks);
    TurnRank(marks, i, total);
    CountIsInjective(marks, Turn(marks, i, total), i);
    NextRank(marks, j, true);
    var rank, other := Count(marks, i), Count(marks, j);
    var k := if other >= rank then other - rank else other + total - rank;
    TurnRank(marks, i, k);
    CountIsInjective(marks, Turn(marks, i, k), j);
    forall k, l | 0 <= k < l < total ensures Turn(marks, i, k) != Turn(marks, i, l) {
      TurnRank(marks, i, k);
      TurnRank(marks, i, l);
    }
  }

  // ---------------------------------------------------------------- What the marks keep

  /** The elements at the marked places, in order. */
  function Kept<T>(s: seq<T>, marks: seq<bool>): (r: seq<T>)
    requires |s| == |marks|
    decreases |s|
  {
    if s == [] then []
    else Kept(s[..|s| - 1], marks[..|s| - 1]) + if marks[|s| - 1] then [s[|s| - 1]] else []
  }

  lemma {:induction false} CountOfPrefix(marks: seq<bool>, m: nat, n: nat)
    requires n <= m <= |marks|
    ensures Count(marks[..m], n) == Count(marks, n)
    decreases n
  {
    if n > 0 { CountOfPrefix(marks, m, n - 1); }
  }

  /** A marked element is kept at its rank. */
  lemma {:induction false} KeptAtRank<T>(s: seq<T>, marks: seq<bool>, i: nat)
    requires |s| == |marks|
    ensures |Kept(s, marks)| == Total(marks)
    ensures i < |s| && marks[i] ==> Count(marks, i) < Total(marks) && Kept(s, marks)[Count(marks, i)] == s[i]
    decreases |s|
  {
    if s != [] {
      var n := |s| - 1;
      KeptAtRank(s[..n], marks[..n], i);
      CountOfPrefix(marks, n, n);
      if i < n { CountOfPrefix(marks, n, i); CountGrows(marks, n, n + 1); }
    }
  }
}
