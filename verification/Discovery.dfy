/** The table of repeaters heard: fixed slots, one per identity, each keeping the newest thing
    heard of it, kills included. */
module Discovery {
  import opened Wrappers
  import opened ChannelPlan
  import Ax25
  import Marks

  type Time = x: int | 0 <= x < 0x1_0000_0000_0000_0000

  datatype ReportKind = Object | Item
  datatype Key = Key(kind: ReportKind, name: seq<byte>, source: Ax25.Callsign)
  datatype Facts = Facts(position: seq<byte>, output: Frequency, alternateInput: Option<Frequency>,
                         tone: Option<u16>, offset: Option<i32>, range: Option<u16>)
  datatype Advertisement = Advertisement(key: Key, facts: Facts)
  datatype Event = Live(advertisement: Advertisement) | Killed(killed: Key) {
    function Key(): Key { if Live? then advertisement.key else killed }
  }

  /** An event with the time it was received at. */
  datatype Report = Report(event: Event, at: Time) {
    function Key(): Key { event.Key() }
  }

  datatype Slot = Empty | Held(report: Report)

  datatype Update = Inserted | Updated | Removed | Unchanged | Stale | Conflict
  datatype TableError = Full

  predicate Has(slots: seq<Slot>, i: nat, key: Key)
    requires i < |slots|
  {
    slots[i].Held? && slots[i].report.Key() == key
  }

  /** No identity has two slots. */
  ghost predicate UniqueKeys(slots: seq<Slot>) {
    forall i, j :: 0 <= i < j < |slots| && slots[i].Held? && slots[j].Held? ==>
      slots[i].report.Key() != slots[j].report.Key()
  }

  function FindFrom(slots: seq<Slot>, key: Key, start: nat): (r: Option<nat>)
    requires start <= |slots|
    ensures r.Some? ==> start <= r.value < |slots| && Has(slots, r.value, key)
    ensures r.None? ==> forall i :: start <= i < |slots| ==> !Has(slots, i, key)
    ensures r.Some? ==> forall i :: start <= i < r.value ==> !Has(slots, i, key)
    decreases |slots| - start
  {
    if start == |slots| then None else if Has(slots, start, key) then Some(start) else FindFrom(slots, key, start + 1)
  }

  function Find(slots: seq<Slot>, key: Key): Option<nat> { FindFrom(slots, key, 0) }

  /** The first free slot. */
  function FreeFrom(slots: seq<Slot>, start: nat): (r: Option<nat>)
    requires start <= |slots|
    ensures r.Some? ==> start <= r.value < |slots| && slots[r.value].Empty?
    ensures r.None? ==> forall i :: start <= i < |slots| ==> slots[i].Held?
    ensures r.Some? ==> forall i :: start <= i < r.value ==> slots[i].Held?
    decreases |slots| - start
  {
    if start == |slots| then None else if slots[start].Empty? then Some(start) else FreeFrom(slots, start + 1)
  }

  /** What is known of one identity. */
  function Known(slots: seq<Slot>, key: Key): Slot {
    match Find(slots, key)
    case None => Empty
    case Some(i) => slots[i]
  }

  /** How a report compares with what its own slot holds. */
  function Judged(held: Report, r: Report): Update {
    if r.at < held.at then Stale
    else if r.at > held.at then (if r.event.Killed? && held.event.Live? then Removed else Updated)
    else if r.event == held.event then Unchanged
    else Conflict
  }

  predicate Changes(u: Update) { u.Inserted? || u.Updated? || u.Removed? }

  /** What one report does to the table. */
  function Applied(slots: seq<Slot>, r: Report): (seq<Slot>, Result<Update, TableError>) {
    match Find(slots, r.Key())
    case Some(i) =>
      var u := Judged(slots[i].report, r);
      (if Changes(u) then slots[i := Held(r)] else slots, Ok(u))
    case None =>
      if r.event.Killed? then (slots, Ok(Unchanged))
      else match FreeFrom(slots, 0)
        case None => (slots, Err(Full))
        case Some(i) => (slots[i := Held(r)], Ok(Inserted))
  }

  // ---------------------------------------------------------------- A last-writer-wins map

  lemma KeyedOnce(slots: seq<Slot>, key: Key, i: nat)
    requires UniqueKeys(slots) && i < |slots| && Has(slots, i, key)
    ensures Find(slots, key) == Some(i)
  {}

  lemma UniqueAfter(slots: seq<Slot>, i: nat, r: Report)
    requires UniqueKeys(slots) && i < |slots|
    requires forall j :: 0 <= j < |slots| && j != i ==> !Has(slots, j, r.Key())
    ensures UniqueKeys(slots[i := Held(r)])
  {
    var after := slots[i := Held(r)];
    forall a, b | 0 <= a < b < |after| && after[a].Held? && after[b].Held?
      ensures after[a].report.Key() != after[b].report.Key()
    {
      if b == i { assert !Has(slots, a, r.Key()); }
      if a == i { assert !Has(slots, b, r.Key()); }
    }
  }

  lemma KnownAfterChange(slots: seq<Slot>, i: nat, r: Report, key: Key)
    requires UniqueKeys(slots) && i < |slots| && UniqueKeys(slots[i := Held(r)])
    requires slots[i].Empty? || slots[i].report.Key() == r.Key()
    ensures Known(slots[i := Held(r)], key) == if key == r.Key() then Held(r) else Known(slots, key)
  {
    var after := slots[i := Held(r)];
    assert Has(after, i, r.Key());
    KeyedOnce(after, r.Key(), i);
    if key != r.Key() {
      match Find(after, key)
      case Some(j) => KeyedOnce(slots, key, j);
      case None =>
        forall j | 0 <= j < |slots| ensures !Has(slots, j, key) { assert !Has(after, j, key); }
    }
  }

  /** The table is a map from identity to the newest report: a report takes its identity's
      place exactly when it is newer than what is held or, being live, finds the identity
      unknown and a slot free. Nothing else changes, and no identity gets a second slot. */
  lemma AppliedIsLastWriterWins(slots: seq<Slot>, r: Report, key: Key)
    requires UniqueKeys(slots)
    ensures var after := Applied(slots, r).0;
            var held := Known(slots, r.Key());
            var takes := if held.Held? then r.at > held.report.at
                         else r.event.Live? && exists i :: 0 <= i < |slots| && slots[i].Empty?;
            && |after| == |slots| && UniqueKeys(after)
            && Known(after, key) == (if takes && key == r.Key() then Held(r) else Known(slots, key))
            && (takes <==> Applied(slots, r).1.Ok? && Changes(Applied(slots, r).1.value))
            && (!takes ==> after == slots)
  {
    match Find(slots, r.Key())
    case Some(i) =>
      forall j | 0 <= j < |slots| && j != i ensures !Has(slots, j, r.Key()) {
        if Has(slots, j, r.Key()) { KeyedOnce(slots, r.Key(), j); }
      }
      if Changes(Judged(slots[i].report, r)) {
        UniqueAfter(slots, i, r);
        KnownAfterChange(slots, i, r, key);
      }
    case None =>
      var free := FreeFrom(slots, 0);
      if free.Some? && r.event.Live? {
        UniqueAfter(slots, free.value, r);
        KnownAfterChange(slots, free.value, r, key);
      }
  }

  /** A slot in use keeps its identity and never goes back in time, whatever arrives: a full
      table refuses an unknown repeater rather than lose one it holds. */
  lemma NothingIsEvicted(slots: seq<Slot>, r: Report, i: nat)
    requires i < |slots| && slots[i].Held?
    ensures var after := Applied(slots, r).0;
            && |after| == |slots| && after[i].Held?
            && after[i].report.Key() == slots[i].report.Key()
            && after[i].report.at >= slots[i].report.at
    ensures Applied(slots, r).1 == Err(Full) <==>
              r.event.Live? && (forall j :: 0 <= j < |slots| ==> slots[j].Held? && !Has(slots, j, r.Key()))
  {}

  predicate IsLive(slot: Slot) { slot.Held? && slot.report.event.Live? }

  /** What each answer says: a report older than its identity's is stale; of the same time it is
      the one held or a conflict; newer, it updates, or removes what was live; and of an identity
      not held, a kill changes nothing and a live report takes the first free slot if any. */
  lemma AnswersExactlyWhen(slots: seq<Slot>, r: Report)
    ensures var held, answer := Known(slots, r.Key()), Applied(slots, r).1;
            && (answer == Ok(Stale) <==> held.Held? && r.at < held.report.at)
            && (answer == Ok(Conflict) <==>
                  held.Held? && r.at == held.report.at && r.event != held.report.event)
            && (answer == Ok(Removed) <==>
                  held.Held? && r.at > held.report.at && IsLive(held) && r.event.Killed?)
            && (answer == Ok(Updated) <==>
                  held.Held? && r.at > held.report.at && (r.event.Live? || !IsLive(held)))
            && (answer == Ok(Unchanged) <==>
                  if held.Held? then held == Held(r) else r.event.Killed?)
            && (answer == Ok(Inserted) <==>
                  held.Empty? && r.event.Live? && exists i :: 0 <= i < |slots| && slots[i].Empty?)
            && (answer == Err(Full) <==>
                  held.Empty? && r.event.Live? && forall i :: 0 <= i < |slots| ==> slots[i].Held?)
            && (answer == Ok(Inserted) ==>
                  exists i :: 0 <= i < |slots| && slots[i].Empty? && (forall j :: 0 <= j < i ==> slots[j].Held?)
                              && Applied(slots, r).0 == slots[i := Held(r)])
  {
    var free := FreeFrom(slots, 0);
    if free.Some? { assert slots[free.value].Empty?; }
  }

  /** So whoever adds one for each repeater inserted and takes one off for each removed, or one
      back for a live report over a kill, always knows how many are live. */
  lemma {:induction false} LiveAreCounted(slots: seq<Slot>, r: Report)
    requires UniqueKeys(slots)
    ensures var (after, answer) := Applied(slots, r);
            Marks.Total(LiveMarks(after)) == Marks.Total(LiveMarks(slots))
              + (if answer == Ok(Inserted) || (answer == Ok(Updated) && r.event.Live? && !IsLive(Known(slots, r.Key())))
                 then 1 else 0)
              - (if answer == Ok(Removed) then 1 else 0)
  {
    AnswersExactlyWhen(slots, r);
    match Find(slots, r.Key())
    case Some(i) =>
      if Changes(Judged(slots[i].report, r)) {
        ReplacedCount(LiveMarks(slots), i, r.event.Live?, |slots|);
        assert LiveMarks(slots[i := Held(r)]) == LiveMarks(slots)[i := r.event.Live?];
      }
    case None =>
      var free := FreeFrom(slots, 0);
      if free.Some? && r.event.Live? {
        ReplacedCount(LiveMarks(slots), free.value, true, |slots|);
        assert LiveMarks(slots[free.value := Held(r)]) == LiveMarks(slots)[free.value := true];
      }
  }

  function LiveMarks(slots: seq<Slot>): seq<bool> {
    seq(|slots|, i requires 0 <= i < |slots| => IsLive(slots[i]))
  }

  lemma {:induction false} ReplacedCount(marks: seq<bool>, i: nat, mark: bool, n: nat)
    requires i < |marks| && n <= |marks|
    ensures Marks.Count(marks[i := mark], n)
         == Marks.Count(marks, n) + if i >= n || marks[i] == mark then 0 else if mark then 1 else -1
    decreases n
  {
    if n > 0 { ReplacedCount(marks, i, mark, n - 1); }
  }

  // ---------------------------------------------------------------- Order

  function Run(slots: seq<Slot>, reports: seq<Report>): (after: seq<Slot>)
    ensures |after| == |slots|
    decreases |reports|
  {
    if reports == [] then slots else Run(Applied(slots, reports[0]).0, reports[1..])
  }

  /** Over every run, no identity has two slots, and no slot in use is taken for another. */
  lemma {:induction false} RunEvictsNothing(slots: seq<Slot>, reports: seq<Report>, i: nat)
    requires UniqueKeys(slots) && i < |slots| && slots[i].Held?
    ensures var after := Run(slots, reports);
            && UniqueKeys(after) && after[i].Held?
            && after[i].report.Key() == slots[i].report.Key() && after[i].report.at >= slots[i].report.at
    decreases |reports|
  {
    if reports != [] {
      hide Applied;
      AppliedIsLastWriterWins(slots, reports[0], reports[0].Key());
      NothingIsEvicted(slots, reports[0], i);
      RunEvictsNothing(Applied(slots, reports[0]).0, reports[1..], i);
    }
  }

  ghost predicate Occupied(slots: seq<Slot>, reports: seq<Report>) {
    forall r :: r in reports ==> Known(slots, r.Key()).Held?
  }

  /** The newest of a slot's own report and those of its identity. */
  ghost predicate IsNewest(held: Report, reports: seq<Report>, newest: Report) {
    && newest.Key() == held.Key()
    && (newest == held || newest in reports)
    && newest.at >= held.at
    && forall r :: r in reports && r.Key() == held.Key() ==> newest.at >= r.at
  }

  lemma OneReport(slots: seq<Slot>, r: Report, i: nat)
    requires UniqueKeys(slots) && Known(slots, r.Key()).Held? && i < |slots|
    ensures var after := Applied(slots, r).0;
            && |after| == |slots| && UniqueKeys(after)
            && (forall key :: Known(slots, key).Held? ==> Known(after, key).Held?)
            && after[i] == (if Has(slots, i, r.Key()) && r.at > slots[i].report.at then Held(r) else slots[i])
  {
    AppliedIsLastWriterWins(slots, r, r.Key());
    forall key | Known(slots, key).Held? ensures Known(Applied(slots, r).0, key).Held? {
      AppliedIsLastWriterWins(slots, r, key);
    }
    if Has(slots, i, r.Key()) { KeyedOnce(slots, r.Key(), i); }
  }

  /** After any reports about identities the table already holds, every slot holds the newest
      thing heard of its own. */
  lemma {:induction false} RunHoldsNewest(slots: seq<Slot>, reports: seq<Report>, i: nat)
    requires UniqueKeys(slots) && Occupied(slots, reports) && i < |slots|
    ensures var after := Run(slots, reports);
            if slots[i].Empty? then after[i].Empty?
            else after[i].Held? && IsNewest(slots[i].report, reports, after[i].report)
    decreases |reports|
  {
    if reports != [] {
      var r, rest := reports[0], reports[1..];
      assert reports == [r] + rest;
      assert r in reports;
      OneReport(slots, r, i);
      hide Applied, Known;
      RunHoldsNewest(Applied(slots, r).0, rest, i);
    }
  }

  /** Reports of one identity at one time agree, with one another and with the slot. */
  ghost predicate Consistent(slots: seq<Slot>, reports: seq<Report>) {
    && (forall a, b :: a in reports && b in reports && a.Key() == b.Key() && a.at == b.at ==> a == b)
    && (forall i, r :: 0 <= i < |slots| && r in reports && Has(slots, i, r.Key()) && r.at == slots[i].report.at ==>
          slots[i] == Held(r))
  }

  /** The order of arrival does not matter, nor do repeats: the same reports, in any order
      and number, leave exactly the same slots. */
  lemma OrderDoesNotMatter(slots: seq<Slot>, reports: seq<Report>, others: seq<Report>)
    requires UniqueKeys(slots) && Occupied(slots, reports) && Consistent(slots, reports)
    requires forall r :: r in reports <==> r in others
    ensures Run(slots, reports) == Run(slots, others)
  {
    hide Run, Known;
    var a, b := Run(slots, reports), Run(slots, others);
    forall i | 0 <= i < |slots| ensures a[i] == b[i] {
      RunHoldsNewest(slots, reports, i);
      RunHoldsNewest(slots, others, i);
    }
  }

  /** Two reports in either order differ exactly when they are one identity's, of one time
      newer than the table, and not the same. */
  lemma OrderMattersExactlyWhen(slots: seq<Slot>, a: Report, b: Report)
    requires UniqueKeys(slots) && Known(slots, a.Key()).Held? && Known(slots, b.Key()).Held?
    ensures Run(slots, [a, b]) != Run(slots, [b, a]) <==>
              a.Key() == b.Key() && a.at == b.at > Known(slots, a.Key()).report.at && a != b
  {
    RunTwo(slots, a, b);
    RunTwo(slots, b, a);
    var first, second := Applied(slots, a).0, Applied(slots, b).0;
    var x, y := Applied(first, b).0, Applied(second, a).0;
    var i := Find(slots, a.Key()).value;
    TwoReports(slots, a, b, i);
    TwoReports(slots, b, a, i);
    hide Applied;
    if x != y {
      var j :| 0 <= j < |slots| && x[j] != y[j];
      TwoReports(slots, a, b, j);
      TwoReports(slots, b, a, j);
      KeyedOnce(slots, a.Key(), j);
    }
  }

  lemma RunTwo(slots: seq<Slot>, a: Report, b: Report)
    ensures Run(slots, [a, b]) == Applied(Applied(slots, a).0, b).0
  {
    assert [a, b][1..] == [b];
    assert Run(Applied(slots, a).0, [b]) == Run(Applied(Applied(slots, a).0, b).0, [b][1..]);
  }

  lemma TwoReports(slots: seq<Slot>, a: Report, b: Report, i: nat)
    requires UniqueKeys(slots) && Known(slots, a.Key()).Held? && Known(slots, b.Key()).Held? && i < |slots|
    ensures var after := Applied(Applied(slots, a).0, b).0;
            var once := if Has(slots, i, a.Key()) && a.at > slots[i].report.at then Held(a) else slots[i];
            && |after| == |slots|
            && after[i] == if Has(slots, i, b.Key()) && b.at > once.report.at then Held(b) else once
  {
    OneReport(slots, a, i);
    OneReport(Applied(slots, a).0, b, i);
  }

  /** A kill of a repeater not yet heard is forgotten, so there the order could matter: but only
      for a newer kill, whose coming first would take receive times that run backwards. */
  lemma UnknownKillOrderMattersExactlyWhen(slots: seq<Slot>, live: Report, kill: Report)
    requires UniqueKeys(slots) && live.event.Live? && kill.event.Killed? && live.Key() == kill.Key()
    requires Known(slots, live.Key()).Empty? && exists i :: 0 <= i < |slots| && slots[i].Empty?
    ensures Known(Run(slots, [kill, live]), live.Key()) == Held(live)
    ensures Known(Run(slots, [live, kill]), live.Key()) == Held(if kill.at > live.at then kill else live)
    ensures Run(slots, [live, kill]) != Run(slots, [kill, live]) <==> kill.at > live.at
  {
    RunTwo(slots, kill, live);
    RunTwo(slots, live, kill);
    AppliedIsLastWriterWins(slots, kill, live.Key());
    AppliedIsLastWriterWins(slots, live, live.Key());
    var after := Applied(slots, live).0;
    AppliedIsLastWriterWins(after, kill, live.Key());
  }

  // ---------------------------------------------------------------- The table in place

  /** The table after everything older than a time is dropped. */
  function Expired(slots: seq<Slot>, cutoff: Time): seq<Slot> {
    seq(|slots|, i requires 0 <= i < |slots| =>
      if slots[i].Held? && slots[i].report.at < cutoff then Empty else slots[i])
  }

  function OldMarks(slots: seq<Slot>, cutoff: Time): seq<bool> {
    seq(|slots|, i requires 0 <= i < |slots| => slots[i].Held? && slots[i].report.at < cutoff)
  }

  /** Dropping old reports forgets exactly the identities last heard before the time. */
  lemma ExpiredForgetsOldOnly(slots: seq<Slot>, cutoff: Time, key: Key)
    requires UniqueKeys(slots)
    ensures UniqueKeys(Expired(slots, cutoff))
    ensures var held := Known(slots, key);
            Known(Expired(slots, cutoff), key) == if held.Held? && held.report.at < cutoff then Empty else held
  {
    var after := Expired(slots, cutoff);
    match Find(after, key) {
      case Some(j) => KeyedOnce(slots, key, j);
      case None =>
        if Find(slots, key).Some? {
          assert !Has(after, Find(slots, key).value, key);
        }
    }
  }

  class DiscoveryTable {
    const slots: array<Slot>

    ghost predicate Valid()
      reads this, slots
    {
      UniqueKeys(slots[..])
    }

    constructor (capacity: nat)
      ensures Valid() && fresh(slots) && slots.Length == capacity
      ensures forall i :: 0 <= i < slots.Length ==> slots[i].Empty?
    {
      slots := new Slot[capacity](_ => Empty);
    }

    method FindSlot(key: Key) returns (r: Option<nat>)
      ensures r == Find(slots[..], key)
    {
      var i := 0;
      while i < slots.Length
        invariant i <= slots.Length
        invariant FindFrom(slots[..], key, i) == Find(slots[..], key)
      {
        if slots[i].Held? && slots[i].report.Key() == key { return Some(i); }
        i := i + 1;
      }
      return None;
    }

    method FreeSlot() returns (r: Option<nat>)
      ensures r == FreeFrom(slots[..], 0)
    {
      var i := 0;
      while i < slots.Length
        invariant i <= slots.Length
        invariant FreeFrom(slots[..], i) == FreeFrom(slots[..], 0)
      {
        if slots[i].Empty? { return Some(i); }
        i := i + 1;
      }
      return None;
    }

    /** Takes in one report. */
    method Apply(event: Event, at: Time) returns (r: Result<Update, TableError>)
      requires Valid()
      modifies slots
      ensures Valid()
      ensures slots[..] == Applied(old(slots[..]), Report(event, at)).0
      ensures r == Applied(old(slots[..]), Report(event, at)).1
    {
      AppliedIsLastWriterWins(slots[..], Report(event, at), event.Key());
      var found := FindSlot(event.Key());
      if found.Some? {
        var u := ApplyExisting(found.value, event, at);
        return Ok(u);
      }
      if event.Killed? { return Ok(Unchanged); }
      var free := FreeSlot();
      if free.None? { return Err(Full); }
      slots[free.value] := Held(Report(event, at));
      return Ok(Inserted);
    }

    method ApplyExisting(index: nat, event: Event, at: Time) returns (u: Update)
      requires index < slots.Length && slots[index].Held? && slots[index].report.Key() == event.Key()
      modifies slots
      ensures u == Judged(old(slots[index]).report, Report(event, at))
      ensures slots[..] == if Changes(u) then old(slots[..])[index := Held(Report(event, at))] else old(slots[..])
    {
      var held := slots[index].report;
      if at < held.at { return Stale; }
      if at == held.at {
        if held.event.Live? && event.Live? && held.event.advertisement == event.advertisement { return Unchanged; }
        if held.event.Killed? && event.Killed? { return Unchanged; }
        return Conflict;
      }
      u := ReplaceNewer(index, event, at);
    }

    method ReplaceNewer(index: nat, event: Event, at: Time) returns (u: Update)
      requires index < slots.Length && slots[index].Held? && at > slots[index].report.at
      modifies slots
      ensures u == Judged(old(slots[index]).report, Report(event, at))
      ensures slots[..] == old(slots[..])[index := Held(Report(event, at))]
    {
      var previous := slots[index].report;
      slots[index] := Held(Report(event, at));
      return if event.Killed? && previous.event.Live? then Removed else Updated;
    }

    /** Drops what was last heard strictly before `cutoff`, and says how many there were. */
    method ExpireBefore(cutoff: Time) returns (expired: nat)
      requires Valid()
      modifies slots
      ensures Valid()
      ensures slots[..] == Expired(old(slots[..]), cutoff)
      ensures expired == Marks.Total(OldMarks(old(slots[..]), cutoff))
    {
      ghost var was := slots[..];
      ghost var marks := OldMarks(was, cutoff);
      ExpiredForgetsOldOnly(was, cutoff, Key(Object, [], Ax25.Callsign([], 0, 0)));
      hide UniqueKeys;
      expired := 0;
      var i := 0;
      while i < slots.Length
        invariant 0 <= i <= slots.Length
        invariant forall k :: 0 <= k < i ==> slots[k] == Expired(was, cutoff)[k]
        invariant forall k :: i <= k < slots.Length ==> slots[k] == was[k]
        invariant expired == Marks.Count(marks, i)
      {
        if slots[i].Held? && slots[i].report.at < cutoff {
          slots[i] := Empty;
          expired := expired + 1;
        }
        i := i + 1;
      }
      assert slots[..] == Expired(was, cutoff);
    }
  }
}
