/** The index space of a radio's channels: stored records in identifier order, then every
    plan's expansion in bank order. */
module ChannelSpace {
  import opened Wrappers
  import opened SortedList
  import opened ChannelPlan

  function RecordKey(c: ChannelRecord): int { c.id }

  function PlanKey(p: GeneratedBank): int { p.id }

  predicate ValidPlans(ps: seq<GeneratedBank>) {
    forall i :: 0 <= i < |ps| ==> ValidPlan(ps[i])
  }

  /** How many channels the plans expand to. */
  function Total(ps: seq<GeneratedBank>): nat {
    if ps == [] then 0 else ps[0].channelCount + Total(ps[1..])
  }

  lemma {:induction false} TotalJoins(a: seq<GeneratedBank>, b: seq<GeneratedBank>)
    ensures Total(a + b) == Total(a) + Total(b)
    decreases |a|
  {
    if a == [] {
      assert a + b == b;
    } else {
      assert (a + b)[1..] == a[1..] + b;
      TotalJoins(a[1..], b);
    }
  }

  /** Installing a plan moves the total by the difference from the plan it replaces. */
  lemma TotalAfterInstall(ps: seq<GeneratedBank>, p: GeneratedBank)
    ensures Total(Upsert(ps, PlanKey, p))
         == Total(ps) + p.channelCount
            - (if Holds(ps, PlanKey, p.id) then ps[Place(ps, PlanKey, p.id)].channelCount else 0)
  {
    var n, rest := Place(ps, PlanKey, p.id), Rest(ps, PlanKey, p.id);
    TotalJoins(ps[..n] + [p], ps[rest..]);
    TotalJoins(ps[..n], [p]);
    TotalJoins(ps[..n], ps[n..]);
    assert ps[..n] + ps[n..] == ps;
    assert Total([p]) == p.channelCount by { assert [p][1..] == []; }
    if rest == n + 1 { assert ps[n..][1..] == ps[n + 1..]; }
  }

  // ---------------------------------------------------------------- Expansion

  /** Every channel of one plan. */
  function PlanRecords(p: GeneratedBank): (r: seq<ChannelRecord>)
    requires ValidPlan(p)
    ensures |r| == p.channelCount
  {
    seq(p.channelCount, i requires 0 <= i < p.channelCount => (ExpansionNeverFails(p, i); RecordAt(p, i).value))
  }

  function Expansion(ps: seq<GeneratedBank>): (r: seq<ChannelRecord>)
    requires ValidPlans(ps)
    ensures |r| == Total(ps)
  {
    if ps == [] then [] else PlanRecords(ps[0]) + Expansion(ps[1..])
  }

  /** The plan an offset into the expansion falls in, and where that plan starts. */
  function Locate(ps: seq<GeneratedBank>, offset: nat): (r: Option<(nat, nat)>)
    ensures r.Some? <==> offset < Total(ps)
    ensures r.Some? ==> r.value.0 < |ps| && r.value.1 < ps[r.value.0].channelCount
  {
    if ps == [] then None
    else if offset < ps[0].channelCount then Some((0, offset))
    else match Locate(ps[1..], offset - ps[0].channelCount)
      case None => None
      case Some((i, at)) => Some((i + 1, at))
  }

  /** The located plan's record is the one at that offset of the whole expansion. */
  lemma {:induction false} LocatedRecord(ps: seq<GeneratedBank>, offset: nat)
    requires ValidPlans(ps) && offset < Total(ps)
    ensures var (i, at) := Locate(ps, offset).value;
            && RecordAt(ps[i], at) == Ok(Expansion(ps)[offset])
            && Expansion(ps)[offset].bank == Some(ps[i].id)
            && GeneratedChannelIndex(Expansion(ps)[offset].id) == Some(at)
    decreases |ps|
  {
    hide RecordAt, ValidPlan, GeneratedChannelIndex;
    if offset < ps[0].channelCount {
      ExpansionNeverFails(ps[0], offset);
    } else {
      LocatedRecord(ps[1..], offset - ps[0].channelCount);
    }
  }

  // ---------------------------------------------------------------- The whole space

  /** Everything a radio can select, in index order. */
  function Records(stored: seq<ChannelRecord>, ps: seq<GeneratedBank>): seq<ChannelRecord>
    requires ValidPlans(ps)
  {
    stored + Expansion(ps)
  }

  /** What an identifier names in a bank: a stored record, or one its plan expands. */
  function Find(stored: seq<ChannelRecord>, ps: seq<GeneratedBank>, bank: BankId, id: ChannelId)
    : Option<ChannelRecord>
  {
    match GeneratedChannelIndex(id)
    case None =>
      var c := Lookup(stored, RecordKey, id);
      if c.Some? && c.value.IsMemberOf(bank) then c else None
    case Some(index) =>
      match Lookup(ps, PlanKey, bank)
      case None => None
      case Some(p) => if RecordAt(p, index).Ok? then Some(RecordAt(p, index).value) else None
  }

  /** A banked record is found by its bank and identifier exactly when the identifier is
      one only storage may use, or the record is the plan's own. */
  lemma FindGivesBackExactlyWhen(stored: seq<ChannelRecord>, ps: seq<GeneratedBank>, i: nat)
    requires Ascending(stored, RecordKey) && Ascending(ps, PlanKey) && ValidPlans(ps)
    requires i < |Records(stored, ps)| && Records(stored, ps)[i].bank.Some?
    ensures var c := Records(stored, ps)[i];
            Find(stored, ps, c.bank.value, c.id) == Some(c) <==>
              || !IsGeneratedId(c.id)
              || i >= |stored|
              || (exists k, at: u16 :: 0 <= k < |ps| && RecordAt(ps[k], at) == Ok(c))
  {
    hide RecordAt, ValidPlan;
    var c := Records(stored, ps)[i];
    if i < |stored| {
      LookupFinds(stored, RecordKey, c.id);
      if IsGeneratedId(c.id) { FindGenerated(stored, ps, c); }
    } else {
      var (k, at) := Locate(ps, i - |stored|).value;
      LocatedRecord(ps, i - |stored|);
      LookupFinds(ps, PlanKey, ps[k].id);
    }
  }

  /** A record with a reserved identifier is found exactly when some plan expands to it. */
  lemma FindGenerated(stored: seq<ChannelRecord>, ps: seq<GeneratedBank>, c: ChannelRecord)
    requires Ascending(ps, PlanKey) && ValidPlans(ps) && c.bank.Some? && IsGeneratedId(c.id)
    ensures Find(stored, ps, c.bank.value, c.id) == Some(c)
       <==> exists k, at: u16 :: 0 <= k < |ps| && RecordAt(ps[k], at) == Ok(c)
  {
    LookupFinds(ps, PlanKey, c.bank.value);
    var index := GeneratedChannelIndex(c.id).value;
    if Find(stored, ps, c.bank.value, c.id) == Some(c) {
      var p := Lookup(ps, PlanKey, c.bank.value).value;
      var k :| 0 <= k < |ps| && ps[k] == p;
      assert RecordAt(ps[k], index) == Ok(c);
    }
    if k, at: u16 :| 0 <= k < |ps| && RecordAt(ps[k], at) == Ok(c) {
      RecordIdentifiesIndex(ps[k], at);
    }
  }

  lemma RecordIdentifiesIndex(p: GeneratedBank, at: u16)
    requires RecordAt(p, at).Ok?
    ensures var c := RecordAt(p, at).value;
            c.bank == Some(p.id) && GeneratedChannelIndex(c.id) == Some(at)
  {}

  /** After storing a channel, its own identifier finds it in its own bank and nowhere else;
      every other identifier, and every reserved one, finds what it found before. */
  lemma FindAfterInsert(stored: seq<ChannelRecord>, ps: seq<GeneratedBank>, c: ChannelRecord, bank: BankId,
                        id: ChannelId)
    requires Ascending(stored, RecordKey)
    ensures Find(Upsert(stored, RecordKey, c), ps, bank, id)
         == if IsGeneratedId(id) || id != c.id then Find(stored, ps, bank, id)
            else if c.IsMemberOf(bank) then Some(c) else None
  {
    hide RecordAt, Upsert, Lookup;
    LookupAfterUpsert(stored, RecordKey, c, id);
  }

  /** After installing a plan, the reserved identifiers of its bank find its channels, as many
      as it has; every other bank and identifier finds what it found before. */
  lemma FindAfterInstall(stored: seq<ChannelRecord>, ps: seq<GeneratedBank>, p: GeneratedBank, bank: BankId,
                         id: ChannelId)
    requires Ascending(ps, PlanKey) && ValidPlan(p)
    ensures var found := Find(stored, Upsert(ps, PlanKey, p), bank, id);
            if !IsGeneratedId(id) || bank != p.id then found == Find(stored, ps, bank, id)
            else
              var index := GeneratedChannelIndex(id).value;
              && (found.Some? <==> index < p.channelCount)
              && (found.Some? ==> found.value.bank == Some(bank) && found.value.id == id
                                  && found.value.receive == p.base + p.spacing * index)
  {
    LookupAfterUpsert(ps, PlanKey, p, bank);
    if IsGeneratedId(id) {
      var index := GeneratedChannelIndex(id).value;
      if index < p.channelCount {
        ExpansionNeverFails(p, index);
        RecordIdentifiesIndex(p, index);
      } else {
        NoRecordPast(p, index);
      }
    }
    hide RecordAt, Upsert, Lookup, ValidPlan;
  }

  lemma NoRecordPast(p: GeneratedBank, index: u16)
    requires index >= p.channelCount
    ensures RecordAt(p, index).Err?
  {}

  // ---------------------------------------------------------------- A record without its plan

  /** Sixteen channels from 446.00625 MHz, 12.5 kHz apart. */
  function SixteenChannels(): GeneratedBank {
    GeneratedBank(0, [0x50, 0x4D, 0x52], [0x50, 0x4D, 0x52, 0x20], 1, 446_006_250, 12_500, 16,
                  Template(NoTone, NoTone, Fm, Narrow, Low1, 12_500, Flags(false, false, false, false, false)),
                  None, LinearSimplex, 0)
  }

  lemma SixteenChannelsAreValid()
    ensures ValidPlan(SixteenChannels())
  {
    hide RecordAt, ChannelName, Digits;
    assert Printable([0x50, 0x4D, 0x52, 0x20]);
  }

  /** A channel expanded from any plan and then stored where no plan is installed is in the
      space, and finding it by its bank and identifier finds nothing. */
  lemma StoredWithoutItsPlan(p: GeneratedBank, index: u16)
    requires ValidPlan(p) && index < p.channelCount
    ensures ValidPlan(SixteenChannels())
    ensures RecordAt(p, index).Ok?
    ensures var c := RecordAt(p, index).value;
            && c.bank == Some(p.id)
            && Upsert([], RecordKey, c) == [c] && Records([c], []) == [c]
            && Find([c], [], p.id, c.id) == None
  {
    hide RecordAt, ValidPlan, ExpectedName, ValidRecord;
    SixteenChannelsAreValid();
    ExpansionNeverFails(p, index);
    RecordIdentifiesIndex(p, index);
    StoredAlone(RecordAt(p, index).value);
  }

  lemma StoredAlone(c: ChannelRecord)
    ensures Upsert([], RecordKey, c) == [c] && Records([c], []) == [c]
    ensures IsGeneratedId(c.id) ==> Find([c], [], if c.bank.Some? then c.bank.value else 0, c.id) == None
  {
    hide RecordAt;
  }
}
