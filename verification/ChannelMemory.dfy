/** The stores a radio keeps its channels in: fixed arrays packed in identifier order, and
    loops that answer for a channel without building the space it is in. */
module ChannelMemory {
  import opened Wrappers
  import opened SortedList
  import opened ChannelPlan
  import opened ChannelSpace
  import Marks
  import RC = ReceiveControl

  datatype MemoryFull = MemoryFull

  /** The slots in use come first, and the rest are empty. */
  predicate Packed<T>(slots: seq<Option<T>>, count: nat) {
    && count <= |slots|
    && (forall i :: 0 <= i < count ==> slots[i].Some?)
    && (forall i :: count <= i < |slots| ==> slots[i].None?)
  }

  /** The values a packed array holds. */
  function Held<T>(slots: seq<Option<T>>, count: nat): (r: seq<T>)
    requires Packed(slots, count)
    ensures |r| == count
    ensures forall i :: 0 <= i < count ==> Some(r[i]) == slots[i]
  {
    Values(slots[..count])
  }

  lemma HeldIs<T>(slots: seq<Option<T>>, count: nat, r: seq<T>)
    requires |r| == count <= |slots|
    requires forall i :: 0 <= i < count ==> slots[i] == Some(r[i])
    requires forall i :: count <= i < |slots| ==> slots[i].None?
    ensures Packed(slots, count) && Held(slots, count) == r
  {}

  /** Slots after one is replaced, or moved up for a new one, hold the upsert. */
  lemma ReplacedIsUpsert<T>(was: seq<Option<T>>, now: seq<Option<T>>, count: nat, key: T -> int, x: T, at: nat)
    requires Packed(was, count) && at < count
    requires Place(Held(was, count), key, key(x)) == at && key(Held(was, count)[at]) == key(x)
    requires now == was[at := Some(x)]
    ensures Packed(now, count) && Held(now, count) == Upsert(Held(was, count), key, x)
  {
    HeldIs(now, count, Upsert(Held(was, count), key, x));
  }

  lemma ShiftedIsUpsert<T>(was: seq<Option<T>>, now: seq<Option<T>>, count: nat, key: T -> int, x: T, at: nat)
    requires Packed(was, count) && at <= count < |was| == |now|
    requires Place(Held(was, count), key, key(x)) == at
    requires at < count ==> key(Held(was, count)[at]) != key(x)
    requires now[..at] == was[..at] && now[at] == Some(x)
    requires now[at + 1..count + 1] == was[at..count] && now[count + 1..] == was[count + 1..]
    ensures Packed(now, count + 1) && Held(now, count + 1) == Upsert(Held(was, count), key, x)
  {
    var r := Upsert(Held(was, count), key, x);
    forall i | 0 <= i < count + 1 ensures now[i] == Some(r[i]) {
      if i < at {
        assert now[..at][i] == was[..at][i];
      } else if i > at {
        assert now[at + 1..count + 1][i - at - 1] == was[at..count][i - at - 1];
      }
    }
    forall i | count + 1 <= i < |now| ensures now[i].None? {
      assert now[count + 1..][i - count - 1] == was[count + 1..][i - count - 1];
    }
    HeldIs(now, count + 1, r);
  }

  // ---------------------------------------------------------------- Stored channels

  /** Stored channels in one array, no two with the same identifier. */
  class ChannelMemory {
    const slots: array<Option<ChannelRecord>>
    var count: u16

    ghost predicate Valid()
      reads this, slots
    {
      && slots.Length <= U16_MAX
      && Packed(slots[..], count)
      && Ascending(Contents(), RecordKey)
    }

    ghost function Contents(): seq<ChannelRecord>
      requires Packed(slots[..], count)
      reads this, slots
    {
      Held(slots[..], count)
    }

    constructor (capacity: u16)
      ensures Valid() && fresh(slots) && slots.Length == capacity && Contents() == []
    {
      slots := new Option<ChannelRecord>[capacity](_ => None);
      count := 0;
    }

    /** The first slot whose identifier is not below `id`. */
    method Position(id: ChannelId) returns (position: nat)
      requires Valid()
      ensures position == Place(Contents(), RecordKey, id) <= count
    {
      position := 0;
      while position < count && slots[position].value.id < id
        invariant position <= count
        invariant forall i :: 0 <= i < position ==> RecordKey(Contents()[i]) < id
      {
        position := position + 1;
      }
      PlaceIs(Contents(), RecordKey, id, position);
    }

    /** Puts a channel in its place, over the one with its identifier if there is one. */
    method Insert(channel: ChannelRecord) returns (r: Result<(), MemoryFull>)
      requires Valid()
      modifies this, slots
      ensures Valid()
      ensures r.Ok? <==> Holds(old(Contents()), RecordKey, channel.id) || old(count) < slots.Length
      ensures Contents() == if r.Ok? then Upsert(old(Contents()), RecordKey, channel) else old(Contents())
    {
      hide Ascending, Place, Held, Upsert, Packed;
      ghost var was := slots[..];
      var position := Position(channel.id);
      FitsSlots();
      UpsertIsUpdate(Contents(), RecordKey, channel);
      if position < count && SlotId(position) == channel.id {
        slots[position] := Some(channel);
        ReplacedIsUpsert(was, slots[..], count, RecordKey, channel, position);
        return Ok(());
      }
      if count >= slots.Length { return Err(MemoryFull); }
      ShiftUp(slots, position, count);
      slots[position] := Some(channel);
      ShiftedIsUpsert(was, slots[..], count, RecordKey, channel, position);
      count := count + 1;
      return Ok(());
    }

    lemma FitsSlots()
      requires Valid()
      ensures count <= slots.Length <= U16_MAX
    {}

    function SlotId(position: nat): ChannelId
      requires Valid() && position < count
      reads this, slots
      ensures SlotId(position) == RecordKey(Contents()[position])
    {
      slots[position].value.id
    }

    /** Looks through every slot for an identifier. */
    method Find(id: ChannelId) returns (r: Option<ChannelRecord>)
      requires Valid()
      ensures r == Lookup(Contents(), RecordKey, id)
    {
      LookupFinds(Contents(), RecordKey, id);
      var index := 0;
      while index < slots.Length
        invariant index <= slots.Length
        invariant forall i :: 0 <= i < Min(index, count) ==> Contents()[i].id != id
      {
        if slots[index].Some? && slots[index].value.id == id {
          assert Some(Contents()[index]) == slots[index];
          return slots[index];
        }
        index := index + 1;
      }
      return None;
    }

    method Get(index: u16) returns (r: Option<ChannelRecord>)
      requires Valid()
      ensures r == if index < |Contents()| then Some(Contents()[index]) else None
    {
      if index >= count { return None; }
      return slots[index];
    }
  }

  // ---------------------------------------------------------------- Stored channels and plans

  lemma LocateStep(ps: seq<GeneratedBank>, offset: nat)
    requires ps != [] && offset >= ps[0].channelCount
    ensures Locate(ps, offset) == match Locate(ps[1..], offset - ps[0].channelCount)
                                  case None => None
                                  case Some((i, at)) => Some((i + 1, at))
  {}

  /** Where the plan space is entered for one plan fewer. */
  lemma {:induction false} LocateDrops(ps: seq<GeneratedBank>, offset: nat, n: nat)
    requires n <= |ps| && Total(ps[..n]) <= offset
    ensures Locate(ps, offset) == match Locate(ps[n..], offset - Total(ps[..n]))
                                  case None => None
                                  case Some((i, at)) => Some((i + n, at))
    decreases n
  {
    hide Locate, Total;
    TotalStep(ps, n);
    if n == 0 {
      assert ps[0..] == ps;
    } else {
      LocateDrops(ps[1..], offset - ps[0].channelCount, n - 1);
      LocateStep(ps, offset);
    }
  }

  lemma TotalStep(ps: seq<GeneratedBank>, n: nat)
    requires n <= |ps|
    ensures n == 0 ==> Total(ps[..n]) == 0
    ensures n > 0 ==> Total(ps[..n]) == ps[0].channelCount + Total(ps[1..][..n - 1]) && ps[n..] == ps[1..][n - 1..]
  {
    if n > 0 { assert ps[..n][1..] == ps[1..][..n - 1]; }
  }

  lemma TotalOfPrefix(ps: seq<GeneratedBank>, n: nat)
    requires n < |ps|
    ensures Total(ps[..n + 1]) == Total(ps[..n]) + ps[n].channelCount
  {
    assert ps[..n + 1] == ps[..n] + [ps[n]];
    TotalJoins(ps[..n], [ps[n]]);
    assert [ps[n]][1..] == [];
  }

  lemma PlansStayValid(ps: seq<GeneratedBank>, p: GeneratedBank)
    requires ValidPlans(ps) && ValidPlan(p)
    ensures ValidPlans(Upsert(ps, PlanKey, p))
  {
    hide ValidPlan;
  }

  class ProgrammedMemory {
    const stored: ChannelMemory
    const plans: array<Option<GeneratedBank>>
    var installed: u16
    var expanded: u16

    ghost function Repr(): set<object> { {this, stored, stored.slots, plans} }

    ghost predicate Valid()
      reads Repr()
    {
      && stored.Valid() && plans.Length <= U16_MAX
      && Packed(plans[..], installed)
      && Ascending(Plans(), PlanKey) && ValidPlans(Plans())
      && expanded == Total(Plans())
    }

    ghost function Plans(): seq<GeneratedBank>
      requires Packed(plans[..], installed)
      reads this, plans
    {
      Held(plans[..], installed)
    }

    /** Everything the store can select, in index order. */
    ghost function Space(): seq<ChannelRecord>
      requires Valid()
      reads Repr()
    {
      Records(stored.Contents(), Plans())
    }

    constructor (channels: u16, capacity: u16)
      ensures Valid() && fresh(Repr()) && plans.Length == capacity && stored.slots.Length == channels
      ensures stored.Contents() == [] && Plans() == []
    {
      stored := new ChannelMemory(channels);
      plans := new Option<GeneratedBank>[capacity](_ => None);
      installed, expanded := 0, 0;
    }

    /** Stores a channel; the plans keep their expansion. */
    method Insert(channel: ChannelRecord) returns (r: Result<(), MemoryFull>)
      requires Valid()
      modifies stored, stored.slots
      ensures Valid() && Plans() == old(Plans())
      ensures r.Ok? <==> Holds(old(stored.Contents()), RecordKey, channel.id) || old(stored.count) < stored.slots.Length
      ensures stored.Contents() == if r.Ok? then Upsert(old(stored.Contents()), RecordKey, channel)
                                   else old(stored.Contents())
    {
      r := stored.Insert(channel);
    }

    function CheckedTotal(others: u16, added: u16): (r: Result<u16, MemoryFull>)
      reads stored
      ensures r.Ok? <==> stored.count + others + added <= U16_MAX
      ensures r.Ok? ==> r.value == others + added
    {
      if others + added > U16_MAX then Err(MemoryFull.MemoryFull)
      else if stored.count + (others + added) > U16_MAX then Err(MemoryFull.MemoryFull)
      else Ok(others + added)
    }

    /** The first plan whose bank is not below `id`. */
    method PlanPosition(id: BankId) returns (position: nat)
      requires Valid()
      ensures position == Place(Plans(), PlanKey, id) <= installed
    {
      position := 0;
      while position < installed && plans[position].value.id < id
        invariant position <= installed
        invariant forall i :: 0 <= i < position ==> PlanKey(Plans()[i]) < id
      {
        position := position + 1;
      }
      PlaceIs(Plans(), PlanKey, id, position);
    }

    /** What the plan space would hold once a plan is installed. */
    ghost function TotalWith(plan: GeneratedBank): int
      requires Packed(plans[..], installed)
      reads this, plans
    {
      Total(Upsert(Plans(), PlanKey, plan))
    }

    /** Installs one generated plan, replacing the one its bank had. */
    method Install(plan: GeneratedBank) returns (r: Result<(), MemoryFull>)
      requires Valid() && ValidPlan(plan)
      modifies this, plans
      ensures Valid() && stored.Contents() == old(stored.Contents())
      ensures r.Ok? <==> && (Holds(old(Plans()), PlanKey, plan.id) || old(installed) < plans.Length)
                         && stored.count + old(TotalWith(plan)) <= U16_MAX
      ensures Plans() == if r.Ok? then Upsert(old(Plans()), PlanKey, plan) else old(Plans())
    {
      hide Ascending, Place, Held, Upsert, Packed, ValidPlan, ValidPlans, Total;
      TotalAfterInstall(Plans(), plan);
      var position := PlanPosition(plan.id);
      PlanFits();
      if position < installed && PlanAt(position).id == plan.id {
        OnePlanFits(position);
        var total :- CheckedTotal(expanded - PlanAt(position).channelCount, plan.channelCount);
        Replace(plan, position, total);
        return Ok(());
      }
      if installed >= plans.Length { return Err(MemoryFull.MemoryFull); }
      var total :- CheckedTotal(expanded, plan.channelCount);
      Squeeze(plan, position, total);
      return Ok(());
    }

    method Replace(plan: GeneratedBank, position: nat, total: u16)
      requires Valid() && ValidPlan(plan) && position < installed
      requires Place(Plans(), PlanKey, plan.id) == position && Plans()[position].id == plan.id
      requires total == TotalWith(plan)
      modifies plans, `expanded
      ensures Valid() && Plans() == old(Upsert(Plans(), PlanKey, plan))
    {
      hide Place, Held, Upsert, Ascending, ValidPlan, ValidPlans, Total;
      UpsertIsUpdate(Plans(), PlanKey, plan);
      PlansStayValid(Plans(), plan);
      ghost var was := plans[..];
      plans[position] := Some(plan);
      ReplacedIsUpsert(was, plans[..], installed, PlanKey, plan, position);
      expanded := total;
    }

    method Squeeze(plan: GeneratedBank, position: nat, total: u16)
      requires Valid() && ValidPlan(plan) && position <= installed < plans.Length
      requires Place(Plans(), PlanKey, plan.id) == position
      requires position < installed ==> Plans()[position].id != plan.id
      requires total == TotalWith(plan)
      modifies plans, `installed, `expanded
      ensures Valid() && Plans() == old(Upsert(Plans(), PlanKey, plan))
    {
      hide Place, Held, Upsert, Ascending, ValidPlan, ValidPlans, Total;
      UpsertIsUpdate(Plans(), PlanKey, plan);
      PlansStayValid(Plans(), plan);
      ghost var was := plans[..];
      ShiftUp(plans, position, installed);
      plans[position] := Some(plan);
      ShiftedIsUpsert(was, plans[..], installed, PlanKey, plan, position);
      installed := installed + 1;
      expanded := total;
    }

    lemma PlanFits()
      requires Valid()
      ensures installed <= plans.Length <= U16_MAX
    {}

    /** One plan is no larger than all of them. */
    lemma OnePlanFits(position: nat)
      requires Valid() && position < installed
      ensures Plans()[position].channelCount <= expanded
    {
      var ps := Plans();
      TotalOfPrefix(ps, position);
      assert ps == ps[..position + 1] + ps[position + 1..];
      TotalJoins(ps[..position + 1], ps[position + 1..]);
    }

    function PlanAt(position: nat): (p: GeneratedBank)
      requires Valid() && position < installed
      reads Repr()
      ensures p == Plans()[position]
    {
      plans[position].value
    }

    /** Looks through every slot for a bank's plan. */
    method Plan(bank: BankId) returns (r: Option<GeneratedBank>)
      requires Valid()
      ensures r == Lookup(Plans(), PlanKey, bank)
    {
      LookupFinds(Plans(), PlanKey, bank);
      var index := 0;
      while index < plans.Length
        invariant index <= plans.Length
        invariant forall i :: 0 <= i < Min(index, installed) ==> Plans()[i].id != bank
      {
        if plans[index].Some? && plans[index].value.id == bank {
          assert Some(Plans()[index]) == plans[index];
          return plans[index];
        }
        index := index + 1;
      }
      return None;
    }

    /** Looks up a bank's channel by identifier; no plan is expanded for it. */
    method Find(bank: BankId, id: ChannelId) returns (r: Option<ChannelRecord>)
      requires Valid()
      ensures r == ChannelSpace.Find(stored.Contents(), Plans(), bank, id)
    {
      var index := GeneratedChannelIndex(id);
      if index.None? {
        var found := stored.Find(id);
        return if found.Some? && found.value.IsMemberOf(bank) then found else None;
      }
      var plan := Plan(bank);
      if plan.None? { return None; }
      var record := RecordAt(plan.value, index.value);
      return if record.Ok? then Some(record.value) else None;
    }

    /** The plan one offset into the plan space falls in, and where in it. */
    method Seek(offset: u16) returns (r: Option<(nat, u16)>)
      requires Valid()
      ensures r.Some? <==> offset < expanded
      ensures r.Some? ==> r.value.0 < installed && Locate(Plans(), offset) == Some((r.value.0, r.value.1))
    {
      hide ValidPlans, Ascending, Held;
      ghost var ps := Plans();
      var remaining: u16 := offset;
      var index: nat := 0;
      assert ps[..0] == [] && ps[..|ps|] == ps;
      PlanFits();
      while index < plans.Length && index < installed
        invariant index <= installed == |ps|
        invariant Total(ps[..index]) + remaining == offset
      {
        LocateDrops(ps, offset, index);
        if remaining < PlanAt(index).channelCount {
          return Some((index, remaining));
        }
        TotalOfPrefix(ps, index);
        remaining := remaining - PlanAt(index).channelCount;
        index := index + 1;
      }
      return None;
    }

    method ExpandedBank(offset: u16) returns (r: Option<BankId>)
      requires Valid()
      ensures r == if offset < expanded then Expansion(Plans())[offset].bank else None
    {
      var found := Seek(offset);
      if found.None? { return None; }
      LocatedRecord(Plans(), offset);
      return Some(PlanAt(found.value.0).id);
    }

    method ExpandedChannel(offset: u16) returns (r: Option<ChannelRecord>)
      requires Valid()
      ensures r == if offset < expanded then Some(Expansion(Plans())[offset]) else None
    {
      var found := Seek(offset);
      if found.None? { return None; }
      LocatedRecord(Plans(), offset);
      var record := RecordAt(PlanAt(found.value.0), found.value.1);
      return Some(record.value);
    }

    /** The length of the index space; no index of it is without a record. */
    method Len() returns (len: u16)
      requires Valid()
      ensures len == Min(|Space()|, U16_MAX)
    {
      return Min(stored.count + expanded, U16_MAX);
    }

    method Get(index: u16) returns (r: Option<ChannelRecord>)
      requires Valid()
      ensures r == if index < |Space()| then Some(Space()[index]) else None
    {
      if index < stored.count {
        r := stored.Get(index);
      } else {
        r := ExpandedChannel(index - stored.count);
      }
    }

    /** Membership of a bank by index alone, with no record built: the answer is the
        record's own. */
    method MemberAt(index: u16, bank: BankId) returns (r: bool)
      requires Valid()
      ensures r == (index < |Space()| && Space()[index].IsMemberOf(bank))
    {
      if index < stored.count {
        var channel := stored.Get(index);
        return channel.Some? && channel.value.IsMemberOf(bank);
      }
      var owner := ExpandedBank(index - stored.count);
      return owner == Some(bank);
    }

    /** The space as receive control walks it. */
    ghost function Source(): RC.Source
      requires Valid()
      reads Repr()
    {
      Space()[..Min(|Space()|, U16_MAX)]
    }

    /** The bank of the channel at an index and its position there, by counting members. */
    method PlaceOf(index: u16) returns (r: Option<(BankId, nat)>)
      requires Valid() && index < |Source()|
      ensures r == RC.PlaceOf(Source(), index)
    {
      var channel := Get(index);
      if channel.None? || channel.value.bank.None? { return None; }
      var bank := channel.value.bank.value;
      ghost var marks := RC.BankMarks(Source(), bank);
      hide Valid, Space;
      var before: nat := 0;
      for at := 0 to index
        invariant before == Marks.Count(marks, at)
      {
        var member := MemberOf(at, bank);
        if member { before := before + 1; }
      }
      return Some((bank, before));
    }

    /** Where a bank's channel at a position is, by counting members up to it. */
    method IndexOf(bank: BankId, position: u16) returns (r: Option<nat>)
      requires Valid()
      ensures r == RC.IndexOf(Source(), bank, position)
    {
      ghost var marks := RC.BankMarks(Source(), bank);
      var count := Len();
      var left: nat := position;
      assert |marks| == count;
      hide Valid, Space;
      for at := 0 to count
        invariant Marks.NthFrom(marks, at, left) == Marks.Nth(marks, position)
      {
        var member := MemberOf(at, bank);
        if member {
          if left == 0 { return Some(at); }
          left := left - 1;
        }
      }
      return None;
    }

    method MemberOf(at: u16, bank: BankId) returns (member: bool)
      requires Valid() && at < |Source()|
      ensures member == RC.BankMarks(Source(), bank)[at]
    {
      member := MemberAt(at, bank);
    }
  }
}
