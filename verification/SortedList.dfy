/** Sequences kept in ascending order of a key, and the loop that keeps an array so. */
module SortedList {
  import opened Wrappers

  predicate Ascending<T>(s: seq<T>, key: T -> int) {
    forall i, j :: 0 <= i < j < |s| ==> key(s[i]) < key(s[j])
  }

  /** The first place whose key is not below `k`. */
  function Place<T>(s: seq<T>, key: T -> int, k: int): (n: nat)
    ensures n <= |s|
    ensures forall i :: 0 <= i < n ==> key(s[i]) < k
    ensures n < |s| ==> key(s[n]) >= k
  {
    if s == [] || key(s[0]) >= k then 0 else 1 + Place(s[1..], key, k)
  }

  predicate Holds<T>(s: seq<T>, key: T -> int, k: int) {
    var n := Place(s, key, k);
    n < |s| && key(s[n]) == k
  }

  /** Where the elements after the new one start. */
  function Rest<T>(s: seq<T>, key: T -> int, k: int): (n: nat)
    ensures n <= |s|
  {
    if Holds(s, key, k) then Place(s, key, k) + 1 else Place(s, key, k)
  }

  /** `s` with `x` in its place, replacing an element with its key. */
  function Upsert<T>(s: seq<T>, key: T -> int, x: T): (r: seq<T>) {
    s[..Place(s, key, key(x))] + [x] + s[Rest(s, key, key(x))..]
  }

  /** The one element with a key, if there is one. */
  function Lookup<T>(s: seq<T>, key: T -> int, k: int): Option<T> {
    if Holds(s, key, k) then Some(s[Place(s, key, k)]) else None
  }

  lemma PlaceIs<T>(s: seq<T>, key: T -> int, k: int, n: nat)
    requires n <= |s| && forall i :: 0 <= i < n ==> key(s[i]) < k
    requires n < |s| ==> key(s[n]) >= k
    ensures Place(s, key, k) == n
  {
    assert Place(s, key, k) >= n;
    assert Place(s, key, k) <= n;
  }

  /** Looking up finds exactly the elements of an ascending sequence. */
  lemma LookupFinds<T>(s: seq<T>, key: T -> int, k: int)
    requires Ascending(s, key)
    ensures forall i :: 0 <= i < |s| && key(s[i]) == k ==> Lookup(s, key, k) == Some(s[i])
    ensures Lookup(s, key, k).Some? ==> Lookup(s, key, k).value in s && key(Lookup(s, key, k).value) == k
  {}

  lemma UpsertAscends<T>(s: seq<T>, key: T -> int, x: T)
    requires Ascending(s, key)
    ensures Ascending(Upsert(s, key, x), key)
  {}

  lemma UpsertMembers<T>(s: seq<T>, key: T -> int, x: T, y: T)
    requires Ascending(s, key)
    ensures y in Upsert(s, key, x) <==> y == x || (y in s && key(y) != key(x))
  {}

  /** An upsert is an update of the map from key to element, and keeps the order. */
  lemma UpsertIsUpdate<T>(s: seq<T>, key: T -> int, x: T)
    requires Ascending(s, key)
    ensures Ascending(Upsert(s, key, x), key)
    ensures forall y :: y in Upsert(s, key, x) <==> y == x || (y in s && key(y) != key(x))
    ensures |Upsert(s, key, x)| == if Holds(s, key, key(x)) then |s| else |s| + 1
  {
    hide Ascending;
    UpsertAscends(s, key, x);
    forall y ensures y in Upsert(s, key, x) <==> y == x || (y in s && key(y) != key(x)) {
      UpsertMembers(s, key, x, y);
    }
  }

  /** After an upsert a key finds the new element if it is the element's, and otherwise what
      it found before. */
  lemma LookupAfterUpsert<T>(s: seq<T>, key: T -> int, x: T, k: int)
    requires Ascending(s, key)
    ensures Lookup(Upsert(s, key, x), key, k) == if k == key(x) then Some(x) else Lookup(s, key, k)
  {
    var r := Upsert(s, key, x);
    UpsertIsUpdate(s, key, x);
    LookupFinds(r, key, k);
    LookupFinds(s, key, k);
    assert x in r;
    if k != key(x) && Lookup(s, key, k).Some? {
      assert Lookup(s, key, k).value in r;
    }
  }

  /** The values in the first `n` slots of an array. */
  function Values<T>(slots: seq<Option<T>>): seq<T>
    requires forall i :: 0 <= i < |slots| ==> slots[i].Some?
  {
    seq(|slots|, i requires 0 <= i < |slots| => slots[i].value)
  }

  /** Makes room at `position` by moving the slots from there to `count` up one. */
  method ShiftUp<T>(slots: array<Option<T>>, position: nat, count: nat)
    requires position <= count < slots.Length
    modifies slots
    ensures slots[..position] == old(slots[..position])
    ensures slots[position + 1..count + 1] == old(slots[position..count])
    ensures slots[count + 1..] == old(slots[count + 1..])
  {
    var index := count;
    while index > position
      invariant position <= index <= count
      invariant forall i :: 0 <= i < index ==> slots[i] == old(slots[i])
      invariant forall i :: index < i <= count ==> slots[i] == old(slots[i - 1])
      invariant forall i :: count < i < slots.Length ==> slots[i] == old(slots[i])
    {
      slots[index] := slots[index - 1];
      index := index - 1;
    }
  }
}
