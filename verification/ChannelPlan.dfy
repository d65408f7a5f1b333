/** Channel records, and the generated plans a radio expands into them on demand. */
module ChannelPlan {
  import opened Wrappers

  // ---------------------------------------------------------------- Domain values

  type Frequency = x: int | 1 <= x < 0x1_0000_0000 witness 1
  type FrequencyStep = x: int | 1 <= x < 0x1_0000_0000 witness 1
  type Offset = i32
  type BankId = u16
  type ChannelId = u16

  datatype Tone = NoTone | Ctcss(tenthsHz: u16) | Dcs(code: u16, inverted: bool)
  datatype Modulation = Fm | Am | Usb | Broadcast
  datatype Bandwidth = Narrow | Wide
  datatype PowerLevel = Low1 | Low2 | Low3 | Low4 | Mid | High

  datatype DomainError = Zero | Overflow | OutOfRange

  datatype PlanError =
    | InvalidName | EmptyBank | ChannelOutOfRange | FrequencyOverflow | InvalidTone | BankOutOfRange
    | TooManyChannels | ReservedChannelId | DerivedNameTooLong | NumberingOverflow | CallingOutOfRange
    | BroadcastRefused

  const BROADCAST_FIRST_HZ: int := 64_000_000
  const BROADCAST_LAST_HZ: int := 108_000_000
  const BROADCAST_RASTER_HZ: int := 100_000
  const MAX_BANKS: int := 254
  const MAX_BANK_NAME_LEN: nat := 16
  const MAX_CHANNEL_NAME_LEN: nat := 12
  const MAX_DESIGNATOR_LEN: nat := 4
  const GENERATED_CHANNEL_ID_BASE: int := 0x8000
  const MAX_GENERATED_CHANNELS: int := 2048

  function FromHz(hz: u32): Result<Frequency, DomainError> {
    if hz == 0 then Err(Zero) else Ok(hz)
  }

  function CheckedAddSteps(f: Frequency, step: FrequencyStep, count: u16): Result<Frequency, DomainError> {
    if step * count > U32_MAX then Err(Overflow)
    else if f + step * count > U32_MAX then Err(Overflow)
    else FromHz(f + step * count)
  }

  function CheckedApplyOffset(f: Frequency, offset: Offset): Result<Frequency, DomainError> {
    if !(0 <= f + offset <= U32_MAX) then Err(Overflow) else FromHz(f + offset)
  }

  function ToPlan<T>(r: Result<T, DomainError>): Result<T, PlanError> {
    match r
    case Ok(v) => Ok(v)
    case Err(_) => Err(FrequencyOverflow)
  }

  predicate IsBroadcastFrequency(f: Frequency) {
    BROADCAST_FIRST_HZ <= f <= BROADCAST_LAST_HZ && f % BROADCAST_RASTER_HZ == 0
  }

  predicate OctalDigits(code: nat) {
    code == 0 || (code % 10 <= 7 && OctalDigits(code / 10))
  }

  predicate ValidTone(t: Tone) {
    match t
    case NoTone => true
    case Ctcss(tenths) => 670 <= tenths <= 2541
    case Dcs(code, _) => 0 < code <= 777 && OctalDigits(code)
  }

  /** A code is valid exactly when it is three octal digits, not all of them zero. */
  lemma CodeIsValidExactlyWhen(code: u16, inverted: bool)
    ensures ValidTone(Dcs(code, inverted)) <==>
              0 < code < 1_000 && code / 100 < 8 && code / 10 % 10 < 8 && code % 10 < 8
  {
    if code < 1_000 {
      OctalStep(code);
      OctalStep(code / 10);
      OctalStep(code / 10 / 10);
      OctalStep(0);
      hide OctalDigits;
      assert code / 10 / 10 == code / 100 && code / 100 < 10;
    }
  }

  lemma OctalStep(code: nat)
    ensures OctalDigits(code) <==> code == 0 || (code % 10 < 8 && OctalDigits(code / 10))
  {}

  function ValidateTone(t: Tone): Result<(), PlanError> {
    if ValidTone(t) then Ok(()) else Err(InvalidTone)
  }

  // ---------------------------------------------------------------- Names

  type Name = seq<u8>

  predicate Printable(bytes: seq<u8>) {
    forall i :: 0 <= i < |bytes| ==> 0x20 <= bytes[i] <= 0x7E
  }

  predicate IsName(name: Name, capacity: nat) {
    1 <= |name| <= capacity && Printable(name)
  }

  /** The name a zero-padded field of a given length spells, if it spells one. */
  function FromField(field: seq<u8>, len: nat): Result<Name, PlanError> {
    if len == 0 || len > |field| || (exists i :: len <= i < |field| && field[i] != 0) then Err(InvalidName)
    else if !Printable(field[..len]) then Err(InvalidName)
    else Ok(field[..len])
  }

  const CALLING_SUFFIX: Name := [0x20, 0x43, 0x41, 0x4C, 0x4C]

  /** How wide a channel number prints. */
  function DecimalDigits(n: u16): nat {
    if n >= 10_000 then 5 else if n >= 1_000 then 4 else if n >= 100 then 3 else if n >= 10 then 2 else 1
  }

  /** The digits themselves, most significant first and unpadded. */
  function Digits(n: nat): (r: Name)
    ensures |r| >= 1
  {
    if n < 10 then [0x30 + n] else Digits(n / 10) + [0x30 + n % 10]
  }

  /** The number digits are read as. */
  function ReadDigits(digits: Name): int {
    if digits == [] then 0 else 10 * ReadDigits(digits[..|digits| - 1]) + digits[|digits| - 1] - 0x30
  }

  lemma {:induction false} DigitsPrintTheNumber(n: nat)
    ensures ReadDigits(Digits(n)) == n
    ensures forall i :: 0 <= i < |Digits(n)| ==> 0x30 <= Digits(n)[i] <= 0x39
  {
    if n < 10 {
      assert Digits(n)[..0] == [];
    } else {
      DigitsPrintTheNumber(n / 10);
      assert Digits(n)[..|Digits(n)| - 1] == Digits(n / 10);
    }
  }

  lemma DigitsHaveLength(n: u16)
    ensures |Digits(n)| == DecimalDigits(n)
  {}

  /** The short prefix a plan takes from its name when it is given none. */
  function DerivedDesignator(name: Name): Result<Name, PlanError>
    requires IsName(name, MAX_BANK_NAME_LEN)
  {
    var len := TrimmedLength(name, Min(|name|, MAX_DESIGNATOR_LEN - 1));
    if len == 0 then Err(InvalidName)
    else FromField(name[..len] + [0x20] + seq(MAX_DESIGNATOR_LEN - len - 1, _ => 0), len + 1)
  }

  function TrimmedLength(name: Name, len: nat): (n: nat)
    requires len <= |name|
    ensures n <= len
  {
    if len > 0 && name[len - 1] == 0x20 then TrimmedLength(name, len - 1) else len
  }

  // ---------------------------------------------------------------- Records

  datatype Flags = Flags(scanSkip: bool, busyLockout: bool, reverse: bool, compander: bool, calling: bool)

  datatype ChannelRecord = ChannelRecord(
    id: ChannelId, name: Name, receive: Frequency, transmit: Frequency, rxTone: Tone, txTone: Tone,
    modulation: Modulation, bandwidth: Bandwidth, power: PowerLevel, step: FrequencyStep,
    flags: Flags, bank: Option<BankId>)
  {
    predicate IsMemberOf(b: BankId) { bank == Some(b) }
    predicate IsScanSkipped() { flags.scanSkip }
  }

  predicate IsGeneratedId(id: ChannelId) { id >= GENERATED_CHANNEL_ID_BASE }

  /** What every record a radio holds satisfies. */
  predicate ValidRecord(c: ChannelRecord) {
    && ValidTone(c.rxTone) && ValidTone(c.txTone)
    && (c.bank.Some? ==> c.bank.value < MAX_BANKS)
    && (c.modulation.Broadcast? ==> c.transmit == c.receive && IsBroadcastFrequency(c.receive))
  }

  /** Constructs a record which may carry a reserved identifier. */
  function Expanded(c: ChannelRecord): Result<ChannelRecord, PlanError> {
    var _ :- ValidateTone(c.rxTone);
    var _ :- ValidateTone(c.txTone);
    if c.bank.Some? && c.bank.value >= MAX_BANKS then Err(BankOutOfRange)
    else if c.modulation.Broadcast? && (c.transmit != c.receive || !IsBroadcastFrequency(c.receive))
    then Err(BroadcastRefused)
    else Ok(c)
  }

  /** Constructs a record which is stored one object each. */
  function NewRecord(c: ChannelRecord): (r: Result<ChannelRecord, PlanError>)
    ensures r.Ok? <==> ValidRecord(c) && !IsGeneratedId(c.id)
    ensures r.Ok? ==> r.value == c
  {
    if IsGeneratedId(c.id) then Err(ReservedChannelId) else Expanded(c)
  }

  /** The reserved identifier of one expanded channel. The index is below the reserved
      bit, so setting the bit is adding the base. */
  function GeneratedChannelId(index: u16): Result<ChannelId, PlanError> {
    if index >= MAX_GENERATED_CHANNELS then Err(TooManyChannels) else Ok(GENERATED_CHANNEL_ID_BASE + index)
  }

  /** The index a reserved identifier was made from. */
  function GeneratedChannelIndex(id: ChannelId): Option<u16> {
    if id < GENERATED_CHANNEL_ID_BASE then None else Some(id - GENERATED_CHANNEL_ID_BASE)
  }

  // ---------------------------------------------------------------- Plans

  datatype Template = Template(rxTone: Tone, txTone: Tone, modulation: Modulation, bandwidth: Bandwidth,
                               power: PowerLevel, step: FrequencyStep, flags: Flags)

  datatype PlanEncoding = LinearSimplex | LinearFixedOffset

  datatype GeneratedBank = GeneratedBank(
    id: BankId, name: Name, designator: Name, firstNumber: u16, base: Frequency, spacing: FrequencyStep,
    channelCount: u16, template: Template, callingIndex: Option<u16>, encoding: PlanEncoding, offset: Offset)

  /** The longest name a plan can derive, with and without the suffix, against the field. */
  function ValidateNumbering(p: GeneratedBank): Result<(), PlanError>
    requires p.channelCount >= 1
  {
    var last := p.firstNumber + (p.channelCount - 1);
    if last > U16_MAX then Err(NumberingOverflow)
    else
      var plain := |p.designator| + DecimalDigits(last);
      if p.callingIndex.None? then
        if plain > MAX_CHANNEL_NAME_LEN then Err(DerivedNameTooLong) else Ok(())
      else
        var number := p.firstNumber + p.callingIndex.value;
        if number > U16_MAX then Err(NumberingOverflow)
        else
          var calling := |p.designator| + DecimalDigits(number) + |CALLING_SUFFIX|;
          if (if plain < calling then calling else plain) > MAX_CHANNEL_NAME_LEN then Err(DerivedNameTooLong)
          else Ok(())
  }

  function Linear(id: BankId, name: Name, base: Frequency, spacing: FrequencyStep, channelCount: u16,
                  template: Template, encoding: PlanEncoding, offset: Offset): Result<GeneratedBank, PlanError>
    requires IsName(name, MAX_BANK_NAME_LEN)
  {
    if channelCount == 0 then Err(EmptyBank)
    else if id >= MAX_BANKS then Err(BankOutOfRange)
    else if channelCount > MAX_GENERATED_CHANNELS then Err(TooManyChannels)
    else
      var last :- ToPlan(CheckedAddSteps(base, spacing, channelCount - 1));
      var _ :- ToPlan(CheckedApplyOffset(base, offset));
      var _ :- ToPlan(CheckedApplyOffset(last, offset));
      if template.modulation.Broadcast?
         && (offset != 0 || spacing % BROADCAST_RASTER_HZ != 0
             || !IsBroadcastFrequency(base) || !IsBroadcastFrequency(last))
      then Err(BroadcastRefused)
      else
        var designator :- DerivedDesignator(name);
        var _ :- ValidateTone(template.rxTone);
        var _ :- ValidateTone(template.txTone);
        var plan :=
          GeneratedBank(id, name, designator, 1, base, spacing, channelCount, template, None, encoding, offset);
        var _ :- ValidateNumbering(plan);
        Ok(plan)
  }

  function LinearSimplexWith(id: BankId, name: Name, base: Frequency, spacing: FrequencyStep, channelCount: u16,
                             template: Template): Result<GeneratedBank, PlanError>
    requires IsName(name, MAX_BANK_NAME_LEN)
  {
    Linear(id, name, base, spacing, channelCount, template, LinearSimplex, 0)
  }

  function LinearFixedOffsetWith(id: BankId, name: Name, base: Frequency, spacing: FrequencyStep, channelCount: u16,
                                 template: Template, offset: Offset): Result<GeneratedBank, PlanError>
    requires IsName(name, MAX_BANK_NAME_LEN)
  {
    Linear(id, name, base, spacing, channelCount, template, LinearFixedOffset, offset)
  }

  function WithDesignator(p: GeneratedBank, designator: Name, firstNumber: u16): Result<GeneratedBank, PlanError>
    requires p.channelCount >= 1
  {
    var q := p.(designator := designator, firstNumber := firstNumber);
    var _ :- ValidateNumbering(q);
    Ok(q)
  }

  function WithCallingIndex(p: GeneratedBank, index: Option<u16>): Result<GeneratedBank, PlanError>
    requires p.channelCount >= 1
  {
    if index.Some? && index.value >= p.channelCount then Err(CallingOutOfRange)
    else
      var q := p.(callingIndex := index);
      var _ :- ValidateNumbering(q);
      Ok(q)
  }

  // ---------------------------------------------------------------- Expansion

  /** What a channel of a plan is called. */
  function ChannelName(p: GeneratedBank, index: u16): Result<Name, PlanError> {
    if index >= p.channelCount then Err(ChannelOutOfRange)
    else if p.firstNumber + index > U16_MAX then Err(NumberingOverflow)
    else
      var number := p.firstNumber + index;
      var plain := p.designator + Digits(number);
      if |p.designator| + DecimalDigits(number) > MAX_CHANNEL_NAME_LEN then Err(DerivedNameTooLong)
      else if p.callingIndex != Some(index) then NameOf(plain)
      else if |plain| + |CALLING_SUFFIX| > MAX_CHANNEL_NAME_LEN then Err(DerivedNameTooLong)
      else NameOf(plain + CALLING_SUFFIX)
  }

  function NameOf(bytes: Name): Result<Name, PlanError> {
    if bytes == [] || !Printable(bytes) then Err(InvalidName) else Ok(bytes)
  }

  /** One channel of a plan, built alone. */
  function RecordAt(p: GeneratedBank, index: u16): Result<ChannelRecord, PlanError> {
    if index >= p.channelCount then Err(ChannelOutOfRange)
    else
      var receive :- ToPlan(CheckedAddSteps(p.base, p.spacing, index));
      var id :- GeneratedChannelId(index);
      var name :- ChannelName(p, index);
      var transmit :- ToPlan(CheckedApplyOffset(receive, p.offset));
      var t := p.template;
      Expanded(ChannelRecord(id, name, receive, transmit, t.rxTone, t.txTone, t.modulation, t.bandwidth, t.power,
                             t.step, t.flags.(calling := p.callingIndex == Some(index)), Some(p.id)))
  }

  // ---------------------------------------------------------------- What construction guarantees

  /** Every way a radio or an editor comes by a plan. */
  datatype Change = Designate(designator: Name, firstNumber: u16) | Call(index: Option<u16>)

  function Changed(p: GeneratedBank, changes: seq<Change>): Result<GeneratedBank, PlanError>
    requires p.channelCount >= 1
    ensures Changed(p, changes).Ok? ==> Changed(p, changes).value.channelCount >= 1
    decreases |changes|
  {
    if changes == [] then Ok(p)
    else
      var q :- match changes[0] {
        case Designate(designator, firstNumber) => WithDesignator(p, designator, firstNumber)
        case Call(index) => WithCallingIndex(p, index)
      };
      Changed(q, changes[1..])
  }

  /** A plan as a constructor and any accepted changes leave it. */
  predicate ValidPlan(p: GeneratedBank) {
    && p.id < MAX_BANKS
    && 1 <= p.channelCount <= MAX_GENERATED_CHANNELS
    && IsName(p.designator, MAX_DESIGNATOR_LEN)
    && ValidTone(p.template.rxTone) && ValidTone(p.template.txTone)
    && var last := p.base + p.spacing * (p.channelCount - 1);
    && last <= U32_MAX
    && 1 <= p.base + p.offset <= U32_MAX
    && 1 <= last + p.offset <= U32_MAX
    && (p.template.modulation.Broadcast? ==>
          && p.offset == 0 && p.spacing % BROADCAST_RASTER_HZ == 0
          && BROADCAST_FIRST_HZ <= p.base && last <= BROADCAST_LAST_HZ && p.base % BROADCAST_RASTER_HZ == 0)
    && (p.callingIndex.Some? ==> p.callingIndex.value < p.channelCount)
    && ValidateNumbering(p).Ok?
  }

  lemma DerivedDesignatorIsName(name: Name)
    requires IsName(name, MAX_BANK_NAME_LEN) && DerivedDesignator(name).Ok?
    ensures IsName(DerivedDesignator(name).value, MAX_DESIGNATOR_LEN)
  {}

  /** The prefix is the name's first bytes, at most three, up to the last that is no space, with
      a space after them; there is none exactly when they are all spaces. */
  lemma DerivedDesignatorExactlyWhen(name: Name)
    requires IsName(name, MAX_BANK_NAME_LEN)
    ensures var r, reach := DerivedDesignator(name), Min(|name|, 3);
            match r
            case Ok(d) =>
              && 1 <= |d| - 1 <= reach && d == name[..|d| - 1] + [0x20] && name[|d| - 2] != 0x20
              && forall i :: |d| - 1 <= i < reach ==> name[i] == 0x20
            case Err(e) => e == InvalidName && forall i :: 0 <= i < reach ==> name[i] == 0x20
  {
    var reach := Min(|name|, 3);
    TrimmedToLast(name, reach);
    var len := TrimmedLength(name, reach);
    if len > 0 {
      var field := name[..len] + [0x20] + seq(MAX_DESIGNATOR_LEN - len - 1, _ => 0);
      assert field[..len + 1] == name[..len] + [0x20];
      hide TrimmedLength;
    }
  }

  lemma {:induction false} TrimmedToLast(name: Name, len: nat)
    requires len <= |name|
    ensures var k := TrimmedLength(name, len);
            && (k > 0 ==> name[k - 1] != 0x20)
            && forall i :: k <= i < len ==> name[i] == 0x20
  {
    if len > 0 { TrimmedToLast(name, len - 1); }
  }

  /** A numbering is accepted exactly when it stays in sixteen bits and every channel's own name
      fits the field. */
  lemma NumberingFitsExactlyWhen(p: GeneratedBank)
    requires p.channelCount >= 1 && (p.callingIndex.Some? ==> p.callingIndex.value < p.channelCount)
    ensures var last := p.firstNumber + (p.channelCount - 1);
            match ValidateNumbering(p)
            case Ok(_) =>
              last <= U16_MAX && forall i :: 0 <= i < p.channelCount ==> |ExpectedName(p, i)| <= MAX_CHANNEL_NAME_LEN
            case Err(e) =>
              if last > U16_MAX then e == NumberingOverflow
              else e == DerivedNameTooLong
                   && exists i :: 0 <= i < p.channelCount && |ExpectedName(p, i)| > MAX_CHANNEL_NAME_LEN
  {
    hide ExpectedName;
    var last := p.firstNumber + (p.channelCount - 1);
    if last <= U16_MAX {
      forall i: nat | i < p.channelCount
        ensures |ExpectedName(p, i)| == |p.designator| + DecimalDigits(p.firstNumber + i)
                                        + if p.callingIndex == Some(i) then 5 else 0
        ensures DecimalDigits(p.firstNumber + i) <= DecimalDigits(last)
      {
        NameLength(p, i);
        DigitsGrow(p.firstNumber + i, last);
      }
      hide DecimalDigits;
      assert |ExpectedName(p, p.channelCount - 1)| >= |p.designator| + DecimalDigits(last);
      if p.callingIndex.Some? {
        assert |ExpectedName(p, p.callingIndex.value)| >= 0;
      }
    }
  }

  lemma NameLength(p: GeneratedBank, i: nat)
    requires p.firstNumber + i <= U16_MAX
    ensures |ExpectedName(p, i)| == |p.designator| + DecimalDigits(p.firstNumber + i)
                                    + if p.callingIndex == Some(i) then 5 else 0
  {
    DigitsHaveLength(p.firstNumber + i);
    hide Digits, DecimalDigits;
  }

  /** What a linear plan has to be. */
  predicate Plannable(id: BankId, name: Name, base: Frequency, spacing: FrequencyStep, channelCount: u16,
                      template: Template, offset: Offset) {
    && id < MAX_BANKS && 1 <= channelCount <= MAX_GENERATED_CHANNELS
    && var last := base + spacing * (channelCount - 1);
    && last <= U32_MAX && 1 <= base + offset <= U32_MAX && 1 <= last + offset <= U32_MAX
    && (template.modulation.Broadcast? ==>
          && offset == 0 && spacing % BROADCAST_RASTER_HZ == 0
          && IsBroadcastFrequency(base) && IsBroadcastFrequency(last))
    && ValidTone(template.rxTone) && ValidTone(template.txTone)
    && exists i :: 0 <= i < Min(|name|, 3) && name[i] != 0x20
  }

  /** The constructor accepts exactly the plans that can be, and makes of them what it was given,
      numbered from one with no calling channel. */
  lemma LinearAcceptsExactlyWhen(id: BankId, name: Name, base: Frequency, spacing: FrequencyStep, channelCount: u16,
                                 template: Template, encoding: PlanEncoding, offset: Offset)
    requires IsName(name, MAX_BANK_NAME_LEN)
    ensures var r := Linear(id, name, base, spacing, channelCount, template, encoding, offset);
            && (r.Ok? <==> Plannable(id, name, base, spacing, channelCount, template, offset))
            && (r.Ok? ==> DerivedDesignator(name).Ok? && r.value == GeneratedBank(
                              id, name, DerivedDesignator(name).value, 1, base, spacing, channelCount, template, None,
                              encoding, offset))
  {
    hide ValidTone, Printable, DerivedDesignator, ValidateNumbering, IsBroadcastFrequency;
    DerivedDesignatorExactlyWhen(name);
    if 1 <= channelCount <= MAX_GENERATED_CHANNELS {
      AddsExactlyWhen(base, spacing, channelCount - 1);
      if DerivedDesignator(name).Ok? {
        FreshNumberingFits(GeneratedBank(id, name, DerivedDesignator(name).value, 1, base, spacing, channelCount,
                                         template, None, encoding, offset));
      }
      hide CheckedAddSteps;
    }
  }

  lemma AddsExactlyWhen(f: Frequency, step: FrequencyStep, count: u16)
    ensures CheckedAddSteps(f, step, count).Ok? <==> f + step * count <= U32_MAX
    ensures CheckedAddSteps(f, step, count).Ok? ==> CheckedAddSteps(f, step, count).value == f + step * count
  {
    MulGrows(step, 0, count);
  }

  lemma FreshNumberingFits(p: GeneratedBank)
    requires 1 <= p.channelCount <= MAX_GENERATED_CHANNELS && p.firstNumber == 1 && p.callingIndex.None?
    requires |p.designator| <= MAX_DESIGNATOR_LEN
    ensures ValidateNumbering(p).Ok?
  {}

  lemma {:induction false} ChangedIsValid(p: GeneratedBank, changes: seq<Change>)
    requires ValidPlan(p) && Changed(p, changes).Ok?
    requires forall c :: c in changes && c.Designate? ==> IsName(c.designator, MAX_DESIGNATOR_LEN)
    ensures ValidPlan(Changed(p, changes).value)
    decreases |changes|
  {
    if changes != [] {
      var q := match changes[0] {
        case Designate(designator, firstNumber) => WithDesignator(p, designator, firstNumber)
        case Call(index) => WithCallingIndex(p, index)
      };
      assert changes[0] in changes;
      assert ValidPlan(q.value);
      ChangedIsValid(q.value, changes[1..]);
    }
  }

  lemma LinearIsValid(id: BankId, name: Name, base: Frequency, spacing: FrequencyStep, channelCount: u16,
                      template: Template, encoding: PlanEncoding, offset: Offset)
    requires IsName(name, MAX_BANK_NAME_LEN)
    requires Linear(id, name, base, spacing, channelCount, template, encoding, offset).Ok?
    ensures ValidPlan(Linear(id, name, base, spacing, channelCount, template, encoding, offset).value)
  {
    DerivedDesignatorIsName(name);
  }

  lemma DigitsGrow(a: u16, b: u16)
    requires a <= b
    ensures DecimalDigits(a) <= DecimalDigits(b)
  {}

  /** The name of channel `index`: the designator, the channel's own number, and for the
      calling channel its purpose. */
  function ExpectedName(p: GeneratedBank, index: nat): Name {
    p.designator + Digits(p.firstNumber + index)
    + if p.callingIndex == Some(index) then CALLING_SUFFIX else []
  }

  lemma NamesFit(p: GeneratedBank, index: u16)
    requires ValidPlan(p) && index < p.channelCount
    ensures ChannelName(p, index) == Ok(ExpectedName(p, index))
    ensures IsName(ExpectedName(p, index), MAX_CHANNEL_NAME_LEN)
  {
    var number := p.firstNumber + index;
    DigitsGrow(number, p.firstNumber + (p.channelCount - 1));
    DigitsHaveLength(number);
    DigitsPrintTheNumber(number);
    assert p.designator + Digits(number) + [] == p.designator + Digits(number);
  }

  /** Multiplying by a smaller count gives no more, and a multiple stays a multiple. */
  lemma StepsGrow(spacing: FrequencyStep, index: nat, last: nat)
    requires index <= last
    ensures 0 <= spacing * index <= spacing * last
    ensures spacing % BROADCAST_RASTER_HZ == 0 ==> (spacing * index) % BROADCAST_RASTER_HZ == 0
  {
    MulGrows(spacing, index, last);
    if spacing % BROADCAST_RASTER_HZ == 0 {
      MultipleOfRaster(spacing, index);
    }
  }

  lemma MulGrows(k: nat, a: nat, b: nat)
    requires a <= b
    ensures 0 <= k * a <= k * b
  {
    assert k * b - k * a == k * (b - a);
  }

  lemma MultipleOfRaster(k: nat, a: nat)
    requires k % BROADCAST_RASTER_HZ == 0
    ensures (k * a) % BROADCAST_RASTER_HZ == 0
  {
    var q := k / BROADCAST_RASTER_HZ;
    assert k == BROADCAST_RASTER_HZ * q;
    Associates(BROADCAST_RASTER_HZ, q, a);
  }

  lemma Associates(r: int, q: nat, a: nat)
    ensures (r * q) * a == r * (q * a)
  {}

  /** Every channel lies between the first and the last, so none overflows. */
  lemma FrequenciesFit(p: GeneratedBank, index: u16)
    requires ValidPlan(p) && index < p.channelCount
    ensures CheckedAddSteps(p.base, p.spacing, index) == Ok(p.base + p.spacing * index)
    ensures var receive := p.base + p.spacing * index;
            && 1 <= receive <= U32_MAX
            && CheckedApplyOffset(receive, p.offset) == Ok(receive + p.offset)
            && (p.template.modulation.Broadcast? ==> p.offset == 0 && IsBroadcastFrequency(receive))
  {
    hide ValidateNumbering, ValidTone, Printable;
    StepsGrow(p.spacing, index, p.channelCount - 1);
    if p.template.modulation.Broadcast? { RasterFits(p, index); }
    hide ValidPlan, IsBroadcastFrequency;
  }

  lemma RasterFits(p: GeneratedBank, index: u16)
    requires ValidPlan(p) && index < p.channelCount && p.template.modulation.Broadcast?
    ensures var receive := p.base + p.spacing * index; 1 <= receive <= U32_MAX && IsBroadcastFrequency(receive)
  {
    hide ValidateNumbering, ValidTone, Printable;
    StepsGrow(p.spacing, index, p.channelCount - 1);
    var k := p.spacing * index;
    assert (p.base + k) % BROADCAST_RASTER_HZ == 0;
  }

  /** Every setting of a record but its calling mark is the template's. */
  predicate FromTemplate(c: ChannelRecord, t: Template) {
    && c.rxTone == t.rxTone && c.txTone == t.txTone && c.modulation == t.modulation && c.bandwidth == t.bandwidth
    && c.power == t.power && c.step == t.step
    && c.flags.scanSkip == t.flags.scanSkip && c.flags.busyLockout == t.flags.busyLockout
    && c.flags.reverse == t.flags.reverse && c.flags.compander == t.flags.compander
  }

  /** A constructed plan can always be expanded: every index below the count yields a
      valid record with the arithmetic frequencies, the number's own name, an identifier
      that leads back to the index, and the template's own settings. */
  lemma ExpansionNeverFails(p: GeneratedBank, index: u16)
    requires ValidPlan(p) && index < p.channelCount
    ensures RecordAt(p, index).Ok?
    ensures var c := RecordAt(p, index).value;
            && ValidRecord(c)
            && c.receive == p.base + p.spacing * index
            && c.transmit == c.receive + p.offset
            && c.name == ExpectedName(p, index)
            && c.bank == Some(p.id)
            && GeneratedChannelIndex(c.id) == Some(index)
            && (c.flags.calling <==> p.callingIndex == Some(index))
            && (c.modulation.Broadcast? ==> IsBroadcastFrequency(c.receive))
            && FromTemplate(c, p.template)
  {
    hide CheckedAddSteps, CheckedApplyOffset, ChannelName, ExpectedName, ValidateNumbering, ValidTone;
    FrequenciesFit(p, index);
    NamesFit(p, index);
  }

  /** Any plan a constructor accepts, however it is re-designated and re-marked after, so
      long as each change is accepted, expands at every index. */
  lemma EveryBuiltPlanExpands(id: BankId, name: Name, base: Frequency, spacing: FrequencyStep, channelCount: u16,
                              template: Template, encoding: PlanEncoding, offset: Offset,
                              changes: seq<Change>, index: u16)
    requires IsName(name, MAX_BANK_NAME_LEN)
    requires forall c :: c in changes && c.Designate? ==> IsName(c.designator, MAX_DESIGNATOR_LEN)
    requires Linear(id, name, base, spacing, channelCount, template, encoding, offset).Ok?
    requires var p := Linear(id, name, base, spacing, channelCount, template, encoding, offset).value;
             p.channelCount >= 1 && Changed(p, changes).Ok?
    ensures var p := Linear(id, name, base, spacing, channelCount, template, encoding, offset).value;
            var q := Changed(p, changes).value;
            && q.channelCount == channelCount
            && (index < channelCount <==> RecordAt(q, index).Ok?)
            && (index < channelCount ==> RecordAt(q, index).value.receive == base + spacing * index)
  {
    var p := Linear(id, name, base, spacing, channelCount, template, encoding, offset).value;
    LinearIsValid(id, name, base, spacing, channelCount, template, encoding, offset);
    ChangedIsValid(p, changes);
    ChangedKeepsArithmetic(p, changes);
    if index < channelCount {
      ExpansionNeverFails(Changed(p, changes).value, index);
    }
  }

  lemma {:induction false} ChangedKeepsArithmetic(p: GeneratedBank, changes: seq<Change>)
    requires p.channelCount >= 1 && Changed(p, changes).Ok?
    ensures var q := Changed(p, changes).value;
            q.channelCount == p.channelCount && q.base == p.base && q.spacing == p.spacing && q.id == p.id
    decreases |changes|
  {
    if changes != [] {
      var q := match changes[0] {
        case Designate(designator, firstNumber) => WithDesignator(p, designator, firstNumber)
        case Call(index) => WithCallingIndex(p, index)
      };
      ChangedKeepsArithmetic(q.value, changes[1..]);
    }
  }

  function Asked(p: GeneratedBank, change: Change): GeneratedBank {
    match change
    case Designate(designator, firstNumber) => p.(designator := designator, firstNumber := firstNumber)
    case Call(index) => p.(callingIndex := index)
  }

  /** A change is made as asked, exactly when it calls a channel of the plan or none and every
      name still fits. */
  lemma ChangeTakesExactlyWhen(p: GeneratedBank, change: Change)
    requires ValidPlan(p)
    ensures var q, r := Asked(p, change), Changed(p, [change]);
            && (r.Ok? <==> && (change.Call? && change.index.Some? ==> change.index.value < p.channelCount)
                           && q.firstNumber + (q.channelCount - 1) <= U16_MAX
                           && forall i :: 0 <= i < q.channelCount ==> |ExpectedName(q, i)| <= MAX_CHANNEL_NAME_LEN)
            && (r.Ok? ==> r.value == q)
  {
    hide ExpectedName, ValidateNumbering, ValidTone, Printable;
    var q := Asked(p, change);
    if q.callingIndex.Some? ==> q.callingIndex.value < q.channelCount { NumberingFitsExactlyWhen(q); }
    OneChange(p, change);
  }

  lemma OneChange(p: GeneratedBank, change: Change)
    requires p.channelCount >= 1
    ensures Changed(p, [change]) == if change.Designate? then WithDesignator(p, change.designator, change.firstNumber)
                                    else WithCallingIndex(p, change.index)
  {
    hide ValidateNumbering;
    assert [change][1..] == [];
  }

  predicate AllDigits(digits: Name) {
    forall i :: 0 <= i < |digits| ==> 0x30 <= digits[i] <= 0x39
  }

  function Suffix(calling: bool): Name { if calling then CALLING_SUFFIX else [] }

  lemma FewerDigitsDiffer(m: Name, n: Name, s: bool, t: bool)
    requires AllDigits(m) && AllDigits(n) && |m| < |n|
    ensures m + Suffix(s) != n + Suffix(t)
  {
    var a, b := m + Suffix(s), n + Suffix(t);
    assert b[|m|] == n[|m|] >= 0x30;
    if s { assert a[|m|] == 0x20; }
  }

  /** A suffix starts with a space, so it never passes for more digits. */
  lemma SuffixShowsWhereDigitsEnd(m: Name, n: Name, s: bool, t: bool)
    requires AllDigits(m) && AllDigits(n) && m + Suffix(s) == n + Suffix(t)
    ensures m == n
  {
    if |m| != |n| {
      if |m| < |n| { FewerDigitsDiffer(m, n, s, t); } else { FewerDigitsDiffer(n, m, t, s); }
    } else {
      assert m == (m + Suffix(s))[..|m|] && n == (n + Suffix(t))[..|n|];
    }
  }

  /** No two channels of a plan have the same name. */
  lemma NamesAreDistinct(p: GeneratedBank, i: nat, j: nat)
    requires ExpectedName(p, i) == ExpectedName(p, j)
    ensures i == j
  {
    hide Digits, ReadDigits, Suffix;
    var m, n := Digits(p.firstNumber + i), Digits(p.firstNumber + j);
    DigitsPrintTheNumber(p.firstNumber + i);
    DigitsPrintTheNumber(p.firstNumber + j);
    ExpectedTail(p, i);
    ExpectedTail(p, j);
    SuffixShowsWhereDigitsEnd(m, n, p.callingIndex == Some(i), p.callingIndex == Some(j));
  }

  lemma ExpectedTail(p: GeneratedBank, i: nat)
    ensures |ExpectedName(p, i)| >= |p.designator|
    ensures ExpectedName(p, i)[|p.designator|..]
         == Digits(p.firstNumber + i) + Suffix(p.callingIndex == Some(i))
  {
    hide Digits;
  }

  // ---------------------------------------------------------------- The radio's own loop

  lemma DigitsStep(n: nat)
    ensures n < 10 ==> Digits(n) == [0x30 + n]
    ensures n >= 10 ==> Digits(n) == Digits(n / 10) + [0x30 + n % 10]
  {}

  /** Writes a number's digits backwards, ending before `end`. */
  method WriteDigits(field: array<u8>, start: nat, end: nat, number: nat)
    requires start < end <= field.Length && |Digits(number)| == end - start
    modifies field
    ensures field[start..end] == Digits(number)
    ensures field[..start] == old(field[..start])
    ensures forall i :: end <= i < field.Length ==> field[i] == old(field[i])
  {
    hide Digits;
    var remaining := number;
    var digit := end;
    while digit > start
      invariant start <= digit <= end
      invariant digit > start ==> |Digits(remaining)| == digit - start
      invariant digit > start ==> Digits(number) == Digits(remaining) + field[digit..end]
      invariant digit == start ==> Digits(number) == field[start..end]
      invariant field[..start] == old(field[..start])
      invariant forall i :: end <= i < field.Length ==> field[i] == old(field[i])
    {
      ghost var written := field[digit..end];
      DigitsStep(remaining);
      digit := digit - 1;
      field[digit] := 0x30 + remaining % 10;
      assert field[digit..end] == [0x30 + remaining % 10] + written;
      remaining := remaining / 10;
    }
  }

  method CopyInto(field: array<u8>, start: nat, bytes: seq<u8>)
    requires start + |bytes| <= field.Length
    modifies field
    ensures field[..start + |bytes|] == old(field[..start]) + bytes
    ensures forall i :: start + |bytes| <= i < field.Length ==> field[i] == old(field[i])
  {
    forall i | start <= i < start + |bytes| { field[i] := bytes[i - start]; }
  }

  /** The name as the radio builds it, in a fixed field of zeroes. */
  method BuildChannelName(p: GeneratedBank, index: u16) returns (r: Result<Name, PlanError>)
    requires IsName(p.designator, MAX_DESIGNATOR_LEN)
    ensures r == ChannelName(p, index)
  {
    hide Digits, DecimalDigits, FromField, Printable, NameOf;
    if index >= p.channelCount { return Err(ChannelOutOfRange); }
    if p.firstNumber + index > U16_MAX { return Err(NumberingOverflow); }
    var number: u16 := p.firstNumber + index;
    DigitsHaveLength(number);
    var digits := DecimalDigits(number);
    var field := new u8[MAX_CHANNEL_NAME_LEN](_ => 0);
    var len := |p.designator|;
    if len + digits > MAX_CHANNEL_NAME_LEN { return Err(DerivedNameTooLong); }
    len := len + digits;
    WriteNumbered(field, p.designator, number, len);
    if p.callingIndex == Some(index) {
      if len + |CALLING_SUFFIX| > MAX_CHANNEL_NAME_LEN { return Err(DerivedNameTooLong); }
      CopyInto(field, len, CALLING_SUFFIX);
      len := len + |CALLING_SUFFIX|;
    }
    FieldIsName(field[..], len);
    return FromField(field[..], len);
  }

  /** The designator, then the digits, ending at `len`. */
  method WriteNumbered(field: array<u8>, designator: Name, number: nat, len: nat)
    requires 1 <= |designator| && |designator| + |Digits(number)| == len <= field.Length
    requires forall i :: 0 <= i < field.Length ==> field[i] == 0
    modifies field
    ensures field[..len] == designator + Digits(number)
    ensures forall i :: len <= i < field.Length ==> field[i] == 0
  {
    hide Digits;
    CopyInto(field, 0, designator);
    assert field[..|designator|] == designator;
    WriteDigits(field, |designator|, len, number);
    assert field[..len] == field[..|designator|] + field[|designator|..len];
  }

  lemma FieldIsName(field: seq<u8>, len: nat)
    requires 1 <= len <= |field| && forall i :: len <= i < |field| ==> field[i] == 0
    ensures FromField(field, len) == NameOf(field[..len])
  {}
}
