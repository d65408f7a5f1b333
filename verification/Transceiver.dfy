/** The transceiver driver as it writes registers, over a bus that may fail at any call. */
module Transceiver {
  import opened Wrappers
  import opened ChannelPlan
  import opened TransceiverState

  const REG_INTERRUPT_FLAGS: Address := 0x02
  const REG_SUB_AUDIO_FREQUENCY: Address := 0x07
  const REG_CDCSS_CODE: Address := 0x08
  const REG_DTMF_COEFFICIENT: Address := 0x09
  const REG_SQUELCH_STATUS: Address := 0x0C
  const REG_SCAN_HIGH: Address := 0x0D
  const REG_SCAN_LOW: Address := 0x0E
  const REG_DTMF_CONTROL: Address := 0x24
  const REG_DEMODULATOR_2A: Address := 0x2A
  const REG_DEMODULATOR_2B: Address := 0x2B
  const REG_DEMODULATOR_2F: Address := 0x2F
  const REG_AM_DEMODULATOR: Address := 0x31
  const REG_FREQUENCY_SCAN: Address := 0x32
  const REG_POWER_BLOCKS: Address := 0x37
  const REG_AF_TAIL: Address := 0x3D
  const REG_INTERRUPT_MASK: Address := 0x3F
  const REG_DEMODULATOR_42: Address := 0x42
  const REG_FILTER_BANDWIDTH: Address := 0x43
  const REG_AF_OUTPUT: Address := 0x47
  const REG_AF_DAC_GAIN: Address := 0x48
  const REG_CLOSE_GLITCH: Address := 0x4D
  const REG_OPEN_GLITCH: Address := 0x4E
  const REG_SQUELCH_NOISE: Address := 0x4F
  const REG_TX_MUTE: Address := 0x50
  const REG_SUB_AUDIO_CONTROL: Address := 0x51
  const REG_TX_52: Address := 0x52
  const REG_AUDIO_54: Address := 0x54
  const REG_AUDIO_55: Address := 0x55
  const REG_GLITCH: Address := 0x63
  const REG_NOISE: Address := 0x65
  const REG_RSSI: Address := 0x67
  const REG_AFC: Address := 0x73
  const REG_SQUELCH_RSSI: Address := 0x78
  const REG_MIC_GAIN: Address := 0x7D
  const REG_AGC_CONTROL: Address := 0x7E

  const FREQUENCY_SCAN_OFF: bv16 := 0x0244
  const FREQUENCY_SCAN_ON: bv16 := 0x0245
  const PROBE_GLITCH_READS: nat := 8
  const PROBE_GLITCH_SETTLED: bv16 := 200
  const MAX_INTERRUPTS_PER_SAMPLE: nat := 8

  function CoreOf(regs: seq<bv16>): Core
    requires |regs| == 0x80
  {
    Core(regs[REG_MODE_CONTROL], regs[REG_GPIO_OUT], regs[REG_PA_CONTROL], regs[REG_FREQUENCY_LOW],
         regs[REG_FREQUENCY_HIGH])
  }

  /** The core registers after one completed write to any register but the reset. */
  function Written(c: Core, address: Address, value: bv16): Core {
    if address == REG_MODE_CONTROL then c.(mode := value)
    else if address == REG_GPIO_OUT then c.(gpio := value)
    else if address == REG_PA_CONTROL then c.(pa := value)
    else if address == REG_FREQUENCY_LOW then c.(low := value)
    else if address == REG_FREQUENCY_HIGH then c.(high := value)
    else c
  }

  /** The log after one more write. */
  function Logged(log: Log, c: Core, address: Address, value: bv16): Log {
    if address == REG_MODE_CONTROL && value != MODE_STANDBY then WithStart(log, Start(value, Words(c.low, c.high)))
    else if address == REG_PA_CONTROL then WithBias(log, value)
    else log
  }

  /** Registers other than those `touched` are as they were. */
  ghost predicate KeepsBut(before: seq<bv16>, after: seq<bv16>, touched: set<int>) {
    |before| == |after| == 0x80 && forall a: int :: 0 <= a < 0x80 && a !in touched ==> after[a] == before[a]
  }

  lemma KeepsJoins(a: seq<bv16>, b: seq<bv16>, c: seq<bv16>, s: set<int>, t: set<int>)
    requires KeepsBut(a, b, s) && KeepsBut(b, c, t)
    ensures KeepsBut(a, c, s + t)
  {}

  lemma KeepsNothing(regs: seq<bv16>, touched: set<int>)
    requires |regs| == 0x80
    ensures KeepsBut(regs, regs, touched)
  {}

  lemma KeepsOne(before: seq<bv16>, address: Address, value: bv16)
    requires |before| == 0x80
    ensures KeepsBut(before, before[address := value], {address})
  {}

  lemma KeepsInside(from: seq<bv16>, before: seq<bv16>, address: Address, value: bv16, touched: set<int>)
    requires KeepsBut(from, before, touched) && address in touched
    ensures KeepsBut(from, before[address := value], touched)
  {}

  lemma KeepsWider(before: seq<bv16>, after: seq<bv16>, s: set<int>, t: set<int>)
    requires KeepsBut(before, after, s) && s <= t
    ensures KeepsBut(before, after, t)
  {}

  lemma KeepsAt(before: seq<bv16>, after: seq<bv16>, touched: set<int>, a: Address)
    requires KeepsBut(before, after, touched) && a !in touched
    ensures |before| == |after| == 0x80 && after[a] == before[a]
  {}

  const GAIN_REGISTERS: set<int> := {0x10, 0x11, 0x12, 0x13, 0x14, 0x49, 0x7B, 0x7E}
  const DEMODULATOR_REGISTERS: set<int> := {0x31, 0x42, 0x2A, 0x2B, 0x2F, 0x54, 0x55, 0x48, 0x3D, 0x73}
  const SQUELCH_REGISTERS: set<int> := {0x4D, 0x4E, 0x4F, 0x78}
  const TONE_REGISTERS: set<int> := {0x51, 0x07, 0x08}

  /** A squelch as the four registers hold it. */
  predicate HoldsSquelch(regs: seq<bv16>, s: Squelch) {
    && |regs| == 0x80
    && regs[0x4D] & 0xFF == s.closeGlitch as bv16 && regs[0x4E] & 0xFF == s.openGlitch as bv16
    && regs[0x4F] >> 8 == s.closeNoise as bv16 && regs[0x4F] & 0xFF == s.openNoise as bv16
    && regs[0x78] >> 8 == s.openRssi as bv16 && regs[0x78] & 0xFF == s.closeRssi as bv16
  }

  lemma BareBytes(a: bv8, b: bv8)
    ensures (0xA000 | (a as bv16)) & 0xFF == a as bv16 && (0x6C00 | (a as bv16)) & 0xFF == a as bv16
    ensures (((a as bv16) << 8) | (b as bv16)) >> 8 == a as bv16
    ensures (((a as bv16) << 8) | (b as bv16)) & 0xFF == b as bv16
  {}

  /** A tone as its registers hold it. A CTCSS frequency is in units of the chip's own, to the
      nearest of them. */
  predicate HoldsTone(p: Profile, regs: seq<bv16>, tone: Tone) {
    && |regs| == 0x80
    && match tone
       case NoTone => regs[0x51] == p.subAudioCtcss
       case Ctcss(tenths) =>
         && regs[0x51] == p.subAudioCtcss
         && (tenths <= 3_900 ==> IsNearest(regs[0x07], tenths))
       case Dcs(_, _) => regs[0x51] == p.subAudioCdcss && regs[0x07] == 2775
  }

  /** The chip counts tones in units of which 206488 make ten kilohertz. */
  predicate IsNearest(word: bv16, tenths: u16) {
    -50_000 <= 100_000 * (word as int) - 206_488 * tenths <= 50_000
  }

  function ToneWord(tenths: u16): bv16 { ((tenths * 206_488 + 50_000) / 100_000 % 0x2000) as bv16 }

  lemma NearestUnit(tenths: u16)
    ensures tenths <= 3_900 ==> IsNearest(ToneWord(tenths), tenths)
  {
    WordHolds((tenths * 206_488 + 50_000) / 100_000 % 0x2000);
    Rounds(tenths);
  }

  lemma Rounds(tenths: u16)
    ensures var code := (tenths * 206_488 + 50_000) / 100_000;
            tenths <= 3_900 ==> code < 0x2000 && -50_000 <= 100_000 * code - 206_488 * tenths <= 50_000
  {}

  lemma FourKept(before: seq<bv16>, after: seq<bv16>)
    requires |before| == |after| == 0x80
    requires forall a: int :: 0 <= a < 0x80 && a != 0x4D && a != 0x4E && a != 0x4F && a != 0x78 ==>
                                after[a] == before[a]
    ensures KeepsBut(before, after, SQUELCH_REGISTERS)
  {}

  lemma ThreeKept(before: seq<bv16>, after: seq<bv16>)
    requires |before| == |after| == 0x80
    requires forall a: int :: 0 <= a < 0x80 && a != 0x51 && a != 0x07 && a != 0x08 ==> after[a] == before[a]
    ensures KeepsBut(before, after, TONE_REGISTERS)
  {}

  lemma GainIsNamed(address: u8)
    requires IsGain(address)
    ensures address in GAIN_REGISTERS
  {}

  lemma SquelchSurvives(a: seq<bv16>, b: seq<bv16>, touched: set<int>, s: Squelch)
    requires HoldsSquelch(a, s) && KeepsBut(a, b, touched) && touched !! SQUELCH_REGISTERS
    ensures HoldsSquelch(b, s)
  {
    KeepsAt(a, b, touched, 0x4D);
    KeepsAt(a, b, touched, 0x4E);
    KeepsAt(a, b, touched, 0x4F);
    KeepsAt(a, b, touched, 0x78);
    hide KeepsBut;
  }

  lemma ToneSurvives(p: Profile, a: seq<bv16>, b: seq<bv16>, touched: set<int>, tone: Tone)
    requires HoldsTone(p, a, tone) && KeepsBut(a, b, touched) && touched !! TONE_REGISTERS
    ensures HoldsTone(p, b, tone)
  {
    KeepsAt(a, b, touched, 0x51);
    KeepsAt(a, b, touched, 0x07);
    hide KeepsBut, IsNearest;
  }

  /** The audio output's register: muted unless demodulated audio is asked for. */
  predicate HoldsAudio(p: Profile, regs: seq<bv16>, modulation: Modulation, af: AfOutput) {
    && |regs| == 0x80
    && if af == Mute || modulation == Broadcast then regs[0x47] == p.afFixedBits
       else if modulation == Usb then regs[0x47] == With(p.afFixedBits, 0x0500)
       else regs[0x47] == With(p.afFixedBits, 0x0100)
  }

  function AudioWord(fixed: bv16, kind: bv16): bv16 { fixed | (kind << 8) }

  lemma BareKinds(fixed: bv16)
    ensures AudioWord(fixed, 0) == fixed && AudioWord(fixed, 1) == With(fixed, 0x0100)
    ensures AudioWord(fixed, 5) == With(fixed, 0x0500)
  {}

  lemma AudioIsHeld(p: Profile, regs: seq<bv16>, modulation: Modulation, af: AfOutput)
    requires |regs| == 0x80
    requires regs[0x47] == AudioWord(p.afFixedBits, if af == Mute || modulation == Broadcast then 0
                                                    else if modulation == Usb then 5 else 1)
    ensures HoldsAudio(p, regs, modulation, af)
  {
    BareKinds(p.afFixedBits);
    hide AudioWord, With;
  }

  function BandwidthWord(p: Profile, bandwidth: Bandwidth): bv16 {
    if bandwidth == Wide then p.bandwidthWide else p.bandwidthNarrow
  }

  /** What a whole receive setup leaves in the registers no state speaks of. */
  predicate HoldsSetup(p: Profile, regs: seq<bv16>, setup: ReceiveSetup) {
    && HoldsSquelch(regs, setup.squelch) && HoldsTone(p, regs, setup.tone)
    && HoldsAudio(p, regs, setup.modulation, setup.af)
    && regs[0x43] == BandwidthWord(p, setup.bandwidth)
  }

  /** The frequency of the registers, by their numbers. */
  function HertzOf(regs: seq<bv16>): nat
    requires |regs| == 0x80
  {
    10 * ((regs[0x39] as int) * 0x1_0000 + (regs[0x38] as int))
  }

  lemma CoreTellsHertz(regs: seq<bv16>, f: Frequency)
    requires |regs| == 0x80 && Aligned(f) && WordsOf(f) == Words(CoreOf(regs).low, CoreOf(regs).high)
    ensures HertzOf(regs) == f
  {
    WordsTellFrequency(f);
    hide WordsOf;
  }

  /** A chip of 128 registers behind a bus. A call that fails, and a write to the reset
      register, may leave any registers behind; a read may answer anything. */
  class RegisterBus {
    var regs: seq<bv16>
    ghost var log: Log

    ghost predicate Valid()
      reads this
    {
      |regs| == 0x80
    }

    ghost function Core(): Core
      requires Valid()
      reads this
    {
      CoreOf(regs)
    }

    method Write(address: Address, value: bv16) returns (ok: bool)
      requires Valid()
      modifies this
      ensures Valid()
      ensures log == Counted(Logged(old(log), old(Core()), address, value), ok)
      ensures ok && address != REG_SOFT_RESET ==> Core() == Written(old(Core()), address, value)
      ensures ok && address != REG_SOFT_RESET ==> regs == old(regs)[address := value]
    {
      ok := *;
      var unknown: seq<bv16> := *;
      log := Counted(Logged(log, Core(), address, value), ok);
      if ok && address != REG_SOFT_RESET {
        regs := regs[address := value];
      } else if |unknown| == 0x80 {
        regs := unknown;
      }
    }

    method Read(address: Address) returns (ok: bool, value: bv16)
      requires Valid()
      modifies this
      ensures Valid() && log == Counted(old(log), ok)
      ensures ok ==> regs == old(regs)
    {
      ok, value := *, *;
      var unknown: seq<bv16> := *;
      if !ok && |unknown| == 0x80 {
        regs := unknown;
      }
      log := Counted(log, ok);
    }
  }

  class Bk4819 {
    const bus: RegisterBus
    const profile: Profile
    /** The two halves of a DCS code's transmitted word. */
    const codeWord: (u16, bool) -> (bv16, bv16)
    var state: DriverState
    var gpioOut: bv16
    var toneFound: bool

    ghost predicate Valid()
      reads this, bus
    {
      bus.Valid() && WellFormed(profile)
    }

    ghost function Now(): Radio
      requires Valid()
      reads this, bus
    {
      Radio(state, gpioOut, bus.Core(), bus.log)
    }

    ghost predicate Settled(op: Operation, before: Radio, r: Result<(), DriverError>)
      requires Valid()
      reads this, bus
    {
      Outcome(profile, before, op, Now(), if r.Ok? then None else Some(r.error))
    }

    /** A driver that claims nothing of the chip yet, and has not spoken to it. */
    constructor (bus: RegisterBus, profile: Profile, codeWord: (u16, bool) -> (bv16, bv16))
      requires bus.Valid() && WellFormed(profile)
      ensures Valid() && Truthful(profile, Now()) && Now() == Radio(Unknown, GPIO_OUT_DEFAULT, bus.Core(), bus.log)
    {
      this.bus, this.profile, this.codeWord := bus, profile, codeWord;
      state, gpioOut, toneFound := Unknown, GPIO_OUT_DEFAULT, false;
    }

    // -------------------------------------------------------------- Faulting access

    /** One register write; a failure latches the fault. */
    method Write(address: Address, value: bv16) returns (r: Result<(), DriverError>)
      requires Valid()
      modifies this`state, bus
      ensures Valid()
      ensures bus.log == Counted(Logged(old(bus.log), old(bus.Core()), address, value), r.Ok?)
      ensures r.Ok? && address != REG_SOFT_RESET ==> bus.regs == old(bus.regs)[address := value]
      ensures r.Ok? ==> state == old(state)
                        && (address != REG_SOFT_RESET ==> bus.Core() == Written(old(bus.Core()), address, value))
      ensures r.Err? ==> r.error == Bus && state == Faulted
    {
      var ok := bus.Write(address, value);
      if !ok {
        state := Faulted;
        return Err(Bus);
      }
      return Ok(());
    }

    method Read(address: Address) returns (r: Result<bv16, DriverError>)
      requires Valid()
      modifies this`state, bus
      ensures Valid() && bus.log == Counted(old(bus.log), r.Ok?)
      ensures r.Ok? ==> state == old(state) && bus.regs == old(bus.regs)
      ensures r.Err? ==> r.error == Bus && state == Faulted
    {
      var (ok, value) := (false, 0);
      ok, value := bus.Read(address);
      if !ok {
        state := Faulted;
        return Err(Bus);
      }
      return Ok(value);
    }

    /** A write to a register no state speaks of. */
    method Set(address: Address, value: bv16) returns (r: Result<(), DriverError>)
      requires Valid() && !IsCore(address)
      modifies this`state, bus
      ensures Valid() && Quiet(old(state), old(bus.Core()), old(bus.log), r)
      ensures r.Ok? ==> bus.regs == old(bus.regs)[address := value]
    {
      r := Write(address, value);
    }

    /** The same among other writes of one step, all of them to registers `touched`. */
    method SetIn(address: Address, value: bv16, ghost from: seq<bv16>, ghost touched: set<int>)
      returns (r: Result<(), DriverError>)
      requires Valid() && !IsCore(address) && KeepsBut(from, bus.regs, touched) && address in touched
      modifies this`state, bus
      ensures Valid() && Quiet(old(state), old(bus.Core()), old(bus.log), r)
      ensures r.Ok? ==> KeepsBut(from, bus.regs, touched)
    {
      hide WellFormed, KeepsBut;
      r := Set(address, value);
      if r.Ok? { KeepsInside(from, old(bus.regs), address, value, touched); }
    }

    /** What a step leaves that writes only registers no state speaks of. */
    ghost predicate Quiet(before: DriverState, core: Core, log: Log, r: Result<(), DriverError>)
      requires Valid()
      reads this, bus
    {
      && bus.log == Counted(log, r.Ok?)
      && (r.Ok? ==> state == before && bus.Core() == core)
      && (r.Err? ==> r.error == Bus && state == Faulted)
    }

    // -------------------------------------------------------------- Command driver

    method RecoverToStandby() returns (r: Result<(), DriverError>)
      requires Valid()
      modifies this, bus
      ensures Valid() && Settled(Recover, old(Now()), r)
      ensures r.Ok? ==> bus.regs[0x30] == 0x0000
    {
      var _ :- Write(REG_MODE_CONTROL, MODE_STANDBY);
      state := Standby;
      return Ok(());
    }

    method LoadFrequency(f: Frequency) returns (r: Result<(), DriverError>)
      requires Valid()
      modifies this`state, bus
      ensures Valid() && bus.log == Counted(old(bus.log), r.Ok?)
      ensures r.Ok? ==> state == old(state)
                        && bus.Core() == old(bus.Core()).(low := WordsOf(f).low, high := WordsOf(f).high)
      ensures r.Err? ==> r.error == Bus && state == Faulted
      ensures r.Ok? ==> KeepsBut(old(bus.regs), bus.regs, {0x38, 0x39})
    {
      hide WordsOf, WellFormed, KeepsBut;
      var words := WordsOf(f);
      ghost var from := bus.regs;
      var _ :- Write(REG_FREQUENCY_LOW, words.low);
      KeepsOne(from, REG_FREQUENCY_LOW, words.low);
      ghost var mid := bus.regs;
      r := Write(REG_FREQUENCY_HIGH, words.high);
      if r.Ok? {
        KeepsOne(mid, REG_FREQUENCY_HIGH, words.high);
        KeepsJoins(from, mid, bus.regs, {0x38}, {0x39});
        assert {0x38} + {0x39} == {0x38, 0x39};
      }
    }

    /** What a step leaves that starts one mode: the core registers it promises, with the mode
        started as they then are; if it fails the start may or may not have been made. */
    ghost predicate StartsOnce(before: DriverState, core: Core, log: Log, r: Result<(), DriverError>)
      requires Valid()
      reads this, bus
    {
      var started := WithStart(log, Start(core.mode, Words(core.low, core.high)));
      && (r.Ok? ==> state == before && bus.Core() == core && bus.log == started)
      && (r.Err? ==> r.error == Bus && state == Faulted
                     && (bus.log == Counted(log, false) || bus.log == Counted(started, false)))
    }

    /** Turns the chip's blocks off and on again in another mode. */
    method Cycle(mode: bv16) returns (r: Result<(), DriverError>)
      requires Valid() && mode != MODE_STANDBY
      modifies this`state, bus
      ensures Valid() && StartsOnce(old(state), old(bus.Core()).(mode := mode), old(bus.log), r)
      ensures r.Ok? ==> KeepsBut(old(bus.regs), bus.regs, {0x30})
    {
      hide WellFormed;
      var _ :- Write(REG_MODE_CONTROL, MODE_STANDBY);
      r := Write(REG_MODE_CONTROL, mode);
    }

    /** Loads a frequency with the chip idle, then writes the final mode. */
    method ProgramMode(f: Frequency, mode: bv16) returns (r: Result<(), DriverError>)
      requires Valid() && mode != MODE_STANDBY
      modifies this`state, bus
      ensures Valid()
      ensures StartsOnce(old(state), old(bus.Core()).(mode := mode, low := WordsOf(f).low, high := WordsOf(f).high),
                         old(bus.log), r)
    {
      hide WordsOf, IsTransmitWord, WellFormed;
      ModesAreApart(profile);
      var _ :- Write(REG_MODE_CONTROL, MODE_STANDBY);
      var _ :- LoadFrequency(f);
      r := Write(REG_MODE_CONTROL, mode);
    }

    method StartReceive(f: Frequency) returns (r: Result<(), DriverError>)
      requires Valid()
      modifies this, bus
      ensures Valid() && Settled(Operation.StartReceive(f), old(Now()), r)
      ensures r.Ok? ==> HertzOf(bus.regs) == f && bus.regs[0x30] == 0xBEF1
    {
      ModesAreApart(profile);
      hide WordsOf, IsTransmitWord, WellFormed, HertzOf;
      if !AtRest(state) { return Err(InvalidState(state)); }
      if !Aligned(f) { return Err(NotTenHertzAligned); }
      var _ :- ProgramMode(f, MODE_RECEIVE);
      CoreTellsHertz(bus.regs, f);
      state := Receiving(f);
      return Ok(());
    }

    /** Keys a request under an authority that matches the whole of it. */
    method StartTransmit(request: TxRequest, token: Authorisation) returns (r: Result<(), DriverError>)
      requires Valid()
      modifies this, bus
      ensures Valid() && Settled(Operation.StartTransmit(request, token), old(Now()), r)
      ensures r.Ok? ==> HertzOf(bus.regs) == request.transmit && bus.regs[0x30] == 0x80FE
    {
      ModesAreApart(profile);
      hide WordsOf, IsTransmitWord, WellFormed, HertzOf;
      if !token.approves(request) { return Err(AuthorisationRequestMismatch); }
      if !AtRest(state) { return Err(InvalidState(state)); }
      if !Aligned(request.transmit) { return Err(NotTenHertzAligned); }
      var _ :- ProgramMode(request.transmit, MODE_TRANSMIT);
      CoreTellsHertz(bus.regs, request.transmit);
      state := Transmitting(request.transmit, token.class_);
      return Ok(());
    }

    method StopTransmit() returns (r: Result<(), DriverError>)
      requires Valid()
      modifies this, bus
      ensures Valid() && Settled(Operation.StopTransmit, old(Now()), r)
      ensures r.Ok? ==> bus.regs[0x30] == 0x0000
    {
      if !state.Transmitting? { return Err(InvalidState(state)); }
      var _ :- Write(REG_MODE_CONTROL, MODE_STANDBY);
      state := Standby;
      return Ok(());
    }

    // -------------------------------------------------------------- Receive setup

    /** Performs the power-on register table, leaving the chip in standby. */
    method Initialise() returns (r: Result<(), DriverError>)
      requires Valid()
      modifies this, bus
      ensures Valid() && Settled(Operation.Initialise, old(Now()), r)
      ensures r.Ok? ==> bus.regs[0x30] == 0x0000 && bus.regs[0x33] == 0x9000 && bus.regs[0x36] == 0x0022
    {
      hide WellFormed, IsTransmitWord;
      ModesAreApart(profile);
      var _ :- ResetAndLoadTables();
      gpioOut := GPIO_OUT_DEFAULT;
      var _ :- Write(REG_GPIO_OUT, GPIO_OUT_DEFAULT);
      var _ :- Set(REG_INTERRUPT_MASK, 0);
      var _ :- Write(REG_MODE_CONTROL, MODE_STANDBY);
      state := Standby;
      return Ok(());
    }

    /** The reset leaves the core registers as it pleases. */
    method ResetAndLoadTables() returns (r: Result<(), DriverError>)
      requires Valid()
      modifies this`state, bus
      ensures Valid() && bus.log == Counted(old(bus.log), r.Ok?)
      ensures r.Ok? ==> state == old(state) && bus.Core().pa == PA_CONTROL_INIT
      ensures r.Err? ==> r.error == Bus && state == Faulted
    {
      hide WellFormed;
      var _ :- Write(REG_SOFT_RESET, 0x8000);
      var _ :- Write(REG_SOFT_RESET, 0x0000);
      var _ :- Set(REG_POWER_BLOCKS, profile.initPowerBlocks);
      var _ :- Write(REG_PA_CONTROL, PA_CONTROL_INIT);
      r := InitialiseTables();
    }

    /** The part of the power-on table no state speaks of. */
    method InitialiseTables() returns (r: Result<(), DriverError>)
      requires Valid()
      modifies this`state, bus
      ensures Valid() && Quiet(old(state), old(bus.Core()), old(bus.log), r)
    {
      hide WellFormed;
      var _ :- ConfigureAgc(Fm);
      if profile.agcAutoAfterInit {
        var agc :- Read(REG_AGC_CONTROL);
        var _ :- Set(REG_AGC_CONTROL, (agc & !0x8000 & !0x7000) | 0x3000);
      }
      var _ :- Set(REG_MIC_GAIN, profile.micGain);
      var _ :- Set(REG_AF_DAC_GAIN, profile.afLevel);
      var _ :- WriteDtmf();
      r := WriteExtraInit();
    }

    /** Receive-side tone coefficients, each under its selector. */
    method WriteDtmf() returns (r: Result<(), DriverError>)
      requires Valid()
      modifies this`state, bus
      ensures Valid() && Quiet(old(state), old(bus.Core()), old(bus.log), r)
    {
      hide WellFormed;
      var coefficients: seq<bv16> := [111, 107, 103, 98, 80, 71, 58, 44, 65, 55, 37, 23, 228, 203, 181, 159];
      var selector: bv16 := 0;
      for i := 0 to |coefficients|
        invariant Valid() && Quiet(old(state), old(bus.Core()), old(bus.log), Ok(()))
      {
        var _ :- Set(REG_DTMF_COEFFICIENT, selector | coefficients[i]);
        selector := selector + 0x1000;
      }
      return Ok(());
    }

    method WriteExtraInit() returns (r: Result<(), DriverError>)
      requires Valid()
      modifies this`state, bus
      ensures Valid() && Quiet(old(state), old(bus.Core()), old(bus.log), r)
    {
      assert PlainTable(profile.extraInit);
      hide WellFormed;
      for i := 0 to |profile.extraInit|
        invariant Valid() && Quiet(old(state), old(bus.Core()), old(bus.log), Ok(()))
      {
        var entry := profile.extraInit[i];
        assert entry in profile.extraInit;
        var _ :- Set(entry.0, entry.1);
      }
      return Ok(());
    }

    /** Writes a gain table, leaving automatic gain mode to its own step. */
    method ConfigureAgc(modulation: Modulation) returns (r: Result<(), DriverError>)
      requires Valid()
      modifies this`state, bus
      ensures Valid() && Quiet(old(state), old(bus.Core()), old(bus.log), r)
      ensures r.Ok? ==> KeepsBut(old(bus.regs), bus.regs, GAIN_REGISTERS)
    {
      var table := if modulation == Am then profile.agcAm else profile.agcFm;
      assert PlainTable(table) && GainTable(table);
      hide WellFormed, KeepsBut;
      ghost var from := bus.regs;
      KeepsNothing(from, GAIN_REGISTERS);
      for i := 0 to |table|
        invariant Valid() && Quiet(old(state), old(bus.Core()), old(bus.log), Ok(()))
        invariant KeepsBut(from, bus.regs, GAIN_REGISTERS)
      {
        var entry := table[i];
        assert entry in table;
        GainIsNamed(entry.0);
        if entry.0 != 0x7E || entry.1 != 0 {
          var _ :- SetIn(entry.0, entry.1, from, GAIN_REGISTERS);
        }
      }
      return Ok(());
    }

    method ConfigureDemodulator(modulation: Modulation) returns (r: Result<(), DriverError>)
      requires Valid()
      modifies this`state, bus
      ensures Valid() && Quiet(old(state), old(bus.Core()), old(bus.log), r)
      ensures r.Ok? ==> KeepsBut(old(bus.regs), bus.regs, DEMODULATOR_REGISTERS)
    {
      hide WellFormed, KeepsBut;
      ghost var from, touched := bus.regs, DEMODULATOR_REGISTERS;
      KeepsNothing(from, touched);
      var amControl :- Read(REG_AM_DEMODULATOR);
      var _ :- SetIn(REG_AM_DEMODULATOR, if modulation == Am then amControl | 1 else amControl & !1, from, touched);
      if profile.demodulatorTuning {
        var _ :- TuneDemodulator(modulation, from);
      }
      r := FinishDemodulator(modulation, from);
    }

    /** The gain, the audio tail and the frequency control of a demodulator. */
    method FinishDemodulator(modulation: Modulation, ghost from: seq<bv16>) returns (r: Result<(), DriverError>)
      requires Valid() && KeepsBut(from, bus.regs, DEMODULATOR_REGISTERS)
      modifies this`state, bus
      ensures Valid() && Quiet(old(state), old(bus.Core()), old(bus.log), r)
      ensures r.Ok? ==> KeepsBut(from, bus.regs, DEMODULATOR_REGISTERS)
    {
      hide WellFormed, KeepsBut;
      ghost var touched := DEMODULATOR_REGISTERS;
      var _ :- SetIn(REG_AF_DAC_GAIN, (profile.afLevel & !0x000F) | 0x000F, from, touched);
      var _ :- SetIn(REG_AF_TAIL, if modulation == Usb then 0x0000 else 0x2AAB, from, touched);
      var afc :- Read(REG_AFC);
      r := SetIn(REG_AFC, if modulation == Fm then afc & !0x0010 else afc | 0x0010, from, touched);
    }

    method TuneDemodulator(modulation: Modulation, ghost from: seq<bv16>) returns (r: Result<(), DriverError>)
      requires Valid() && KeepsBut(from, bus.regs, DEMODULATOR_REGISTERS)
      modifies this`state, bus
      ensures Valid() && Quiet(old(state), old(bus.Core()), old(bus.log), r)
      ensures r.Ok? ==> KeepsBut(from, bus.regs, DEMODULATOR_REGISTERS)
    {
      hide WellFormed, KeepsBut;
      ghost var touched := DEMODULATOR_REGISTERS;
      if modulation == Am {
        var _ :- SetIn(REG_DEMODULATOR_42, 0x6F5C, from, touched);
        var _ :- SetIn(REG_DEMODULATOR_2A, 0x7434, from, touched);
      } else {
        var _ :- SetIn(REG_DEMODULATOR_42, 0x6B5A, from, touched);
        var _ :- SetIn(REG_DEMODULATOR_2A, 0x7400, from, touched);
        var _ :- SetIn(REG_DEMODULATOR_2B, 0x0000, from, touched);
        var _ :- SetIn(REG_DEMODULATOR_2F, 0x9890, from, touched);
      }
      var _ :- SetIn(REG_AUDIO_54, 0x9009, from, touched);
      r := SetIn(REG_AUDIO_55, 0x31A9, from, touched);
    }

    method ConfigureSquelch(s: Squelch) returns (r: Result<(), DriverError>)
      requires Valid()
      modifies this`state, bus
      ensures Valid() && Quiet(old(state), old(bus.Core()), old(bus.log), r)
      ensures r.Ok? ==> KeepsBut(old(bus.regs), bus.regs, SQUELCH_REGISTERS) && HoldsSquelch(bus.regs, s)
    {
      hide WellFormed, KeepsBut;
      BareBytes(s.closeGlitch, 0);
      BareBytes(s.openGlitch, 0);
      BareBytes(s.closeNoise, s.openNoise);
      BareBytes(s.openRssi, s.closeRssi);
      ghost var from := bus.regs;
      var _ :- Set(REG_CLOSE_GLITCH, 0xA000 | (s.closeGlitch as bv16));
      var _ :- Set(REG_OPEN_GLITCH, 0x6C00 | (s.openGlitch as bv16));
      var _ :- Set(REG_SQUELCH_NOISE, ((s.closeNoise as bv16) << 8) | (s.openNoise as bv16));
      r := Set(REG_SQUELCH_RSSI, ((s.openRssi as bv16) << 8) | (s.closeRssi as bv16));
      if r.Ok? { FourKept(from, bus.regs); }
    }

    method ConfigureSubAudio(tone: Tone) returns (r: Result<(), DriverError>)
      requires Valid()
      modifies this`state, bus
      ensures Valid() && Quiet(old(state), old(bus.Core()), old(bus.log), r)
      ensures r.Ok? ==> KeepsBut(old(bus.regs), bus.regs, TONE_REGISTERS) && HoldsTone(profile, bus.regs, tone)
    {
      hide WellFormed, KeepsBut, IsNearest, ToneWord;
      ghost var from := bus.regs;
      match tone
      case NoTone =>
        var _ :- Set(REG_SUB_AUDIO_CONTROL, profile.subAudioCtcss);
        r := Set(REG_SUB_AUDIO_FREQUENCY, 0x2000 | 462);
        if r.Ok? { ThreeKept(from, bus.regs); }
      case Ctcss(tenths) =>
        var _ :- Set(REG_SUB_AUDIO_CONTROL, profile.subAudioCtcss);
        NearestUnit(tenths);
        r := Set(REG_SUB_AUDIO_FREQUENCY, ToneWord(tenths));
        if r.Ok? { ThreeKept(from, bus.regs); }
      case Dcs(code, inverted) =>
        var halves := codeWord(code, inverted);
        var _ :- Set(REG_SUB_AUDIO_CONTROL, profile.subAudioCdcss);
        var _ :- Set(REG_SUB_AUDIO_FREQUENCY, 2775);
        var _ :- Set(REG_CDCSS_CODE, halves.0);
        r := Set(REG_CDCSS_CODE, 0x8000 | halves.1);
        if r.Ok? { ThreeKept(from, bus.regs); }
    }

    method WriteAfOutput(modulation: Modulation, af: AfOutput) returns (r: Result<(), DriverError>)
      requires Valid()
      modifies this`state, bus
      ensures Valid() && Quiet(old(state), old(bus.Core()), old(bus.log), r)
      ensures r.Ok? ==> KeepsBut(old(bus.regs), bus.regs, {0x47}) && HoldsAudio(profile, bus.regs, modulation, af)
    {
      hide WellFormed, AudioWord, HoldsAudio, With;
      var kind: bv16 := if af == Mute || modulation == Broadcast then 0 else if modulation == Usb then 5 else 1;
      r := Set(REG_AF_OUTPUT, AudioWord(profile.afFixedBits, kind));
      if r.Ok? { AudioIsHeld(profile, bus.regs, modulation, af); }
    }

    method WriteGpio(gpio: bv16) returns (r: Result<(), DriverError>)
      requires Valid()
      modifies this`state, this`gpioOut, bus
      ensures Valid() && gpioOut == gpio && bus.log == Counted(old(bus.log), r.Ok?)
      ensures r.Ok? ==> state == old(state) && bus.Core() == old(bus.Core()).(gpio := gpio)
      ensures r.Err? ==> r.error == Bus && state == Faulted
      ensures r.Ok? ==> KeepsBut(old(bus.regs), bus.regs, {0x33})
    {
      hide WellFormed;
      gpioOut := gpio;
      r := Write(REG_GPIO_OUT, gpioOut);
    }

    method SelectFilterPath(f: Frequency) returns (r: Result<(), DriverError>)
      requires Valid()
      modifies this`state, this`gpioOut, bus
      ensures Valid() && gpioOut == WithPath(old(gpioOut), f) && bus.log == Counted(old(bus.log), r.Ok?)
      ensures r.Ok? ==> state == old(state) && bus.Core() == old(bus.Core()).(gpio := gpioOut)
      ensures r.Err? ==> r.error == Bus && state == Faulted
      ensures r.Ok? ==> KeepsBut(old(bus.regs), bus.regs, {0x33})
    {
      hide WellFormed, With, Without, KeepsBut;
      var selected := if f < FILTER_PATH_BOUNDARY_HZ then GPIO_VHF_LNA else GPIO_UHF_LNA;
      r := WriteGpio(With(Without(gpioOut, LNA_BITS), selected));
    }

    /** Tunes and sets up reception from scratch. */
    method ConfigureReceive(setup: ReceiveSetup) returns (r: Result<(), DriverError>)
      requires Valid()
      modifies this, bus
      ensures Valid() && Settled(Operation.ConfigureReceive(setup), old(Now()), r)
      ensures r.Ok? ==> HertzOf(bus.regs) == setup.frequency && HoldsSetup(profile, bus.regs, setup)
    {
      hide WordsOf, WellFormed, WithReceive, PaOn, HoldsSetup, Outcome, HertzOf;
      if !AtRest(state) {
        RefusedSetup(profile, Now(), setup);
        return Err(InvalidState(state));
      }
      var f := setup.frequency;
      if !Aligned(f) {
        RefusedSetup(profile, Now(), setup);
        return Err(NotTenHertzAligned);
      }
      ghost var before := Now();
      r := Reconfigure(setup);
      if r.Ok? {
        state := Receiving(f);
        CoreTellsHertz(bus.regs, f);
      }
      ReconfiguredIsConfigured(profile, before, setup, Now(), if r.Ok? then None else Some(r.error));
    }

    method Reconfigure(setup: ReceiveSetup) returns (r: Result<(), DriverError>)
      requires Valid()
      modifies this`state, this`gpioOut, this`toneFound, bus
      ensures Valid() && (r.Ok? ==> gpioOut == WithReceive(old(gpioOut), setup.frequency))
      ensures PaOn(gpioOut) == PaOn(old(gpioOut))
      ensures StartsOnce(old(state), old(bus.Core()).(mode := profile.receiveMode,
                                                      gpio := WithReceive(old(gpioOut), setup.frequency),
                                                      low := WordsOf(setup.frequency).low,
                                                      high := WordsOf(setup.frequency).high),
                         old(bus.log), r)
      ensures r.Ok? ==> HoldsSetup(profile, bus.regs, setup)
    {
      hide WordsOf, WellFormed, WithReceive, PaOn, KeepsBut, HoldsTone, HoldsAudio, HoldsSquelch;
      var _ :- TurnOn(setup);
      ghost var r1 := bus.regs;
      r := OpenAndListen(setup);
      if r.Ok? {
        KeepsAt(r1, bus.regs, TONE_REGISTERS + {0x33, 0x3F, 0x02, 0x47}, 0x43);
        SquelchSurvives(r1, bus.regs, TONE_REGISTERS + {0x33, 0x3F, 0x02, 0x47}, setup.squelch);
      }
    }

    method OpenAndListen(setup: ReceiveSetup) returns (r: Result<(), DriverError>)
      requires Valid()
      modifies this`state, this`gpioOut, this`toneFound, bus
      ensures Valid() && bus.log == Counted(old(bus.log), r.Ok?) && PaOn(gpioOut) == PaOn(old(gpioOut))
      ensures r.Ok? ==> state == old(state) && gpioOut == WithReceive(old(gpioOut), setup.frequency)
                        && bus.Core() == old(bus.Core()).(gpio := gpioOut)
      ensures r.Err? ==> r.error == Bus && state == Faulted
      ensures r.Ok? ==> KeepsBut(old(bus.regs), bus.regs, TONE_REGISTERS + {0x33, 0x3F, 0x02, 0x47})
      ensures r.Ok? ==> HoldsTone(profile, bus.regs, setup.tone)
                        && HoldsAudio(profile, bus.regs, setup.modulation, setup.af)
    {
      hide WellFormed, WithReceive, PaOn, KeepsBut, HoldsTone, HoldsAudio;
      ghost var r0 := bus.regs;
      var _ :- OpenFrontEnd(setup.frequency);
      ghost var r1 := bus.regs;
      r := Listen(setup);
      if r.Ok? {
        KeepsJoins(r0, r1, bus.regs, {0x33}, TONE_REGISTERS + {0x3F, 0x02, 0x47});
        assert {0x33} + (TONE_REGISTERS + {0x3F, 0x02, 0x47}) == TONE_REGISTERS + {0x33, 0x3F, 0x02, 0x47};
      }
    }

    /** Everything up to the receive mode, which is written after the frequency. */
    method TurnOn(setup: ReceiveSetup) returns (r: Result<(), DriverError>)
      requires Valid()
      modifies this`state, bus
      ensures Valid()
      ensures StartsOnce(old(state), old(bus.Core()).(mode := profile.receiveMode,
                                                      low := WordsOf(setup.frequency).low,
                                                      high := WordsOf(setup.frequency).high),
                         old(bus.log), r)
      ensures r.Ok? ==> HoldsSquelch(bus.regs, setup.squelch)
      ensures r.Ok? ==> bus.regs[0x43] == BandwidthWord(profile, setup.bandwidth)
    {
      ModesAreApart(profile);
      hide WordsOf, IsTransmitWord, IsReceiveWord, WellFormed, KeepsBut, HoldsSquelch;
      var _ :- Write(REG_MODE_CONTROL, MODE_STANDBY);
      var _ :- TuneChain(setup);
      ghost var r1 := bus.regs;
      r := Cycle(profile.receiveMode);
      if r.Ok? {
        KeepsAt(r1, bus.regs, {0x30}, 0x43);
        SquelchSurvives(r1, bus.regs, {0x30}, setup.squelch);
      }
    }

    /** The bandwidth, the frequency and the receive chain, with the chip idle. */
    method TuneChain(setup: ReceiveSetup) returns (r: Result<(), DriverError>)
      requires Valid()
      modifies this`state, bus
      ensures Valid() && bus.log == Counted(old(bus.log), r.Ok?)
      ensures r.Ok? ==> state == old(state)
                        && bus.Core() == old(bus.Core()).(low := WordsOf(setup.frequency).low,
                                                          high := WordsOf(setup.frequency).high)
      ensures r.Err? ==> r.error == Bus && state == Faulted
      ensures r.Ok? ==> HoldsSquelch(bus.regs, setup.squelch)
      ensures r.Ok? ==> bus.regs[0x43] == BandwidthWord(profile, setup.bandwidth)
    {
      hide WordsOf, WellFormed, KeepsBut, HoldsSquelch;
      var _ :- Set(REG_FILTER_BANDWIDTH, BandwidthWord(profile, setup.bandwidth));
      ghost var r0 := bus.regs;
      var _ :- LoadFrequency(setup.frequency);
      KeepsAt(r0, bus.regs, {0x38, 0x39}, 0x43);
      r := ConfigureChain(setup);
    }

    /** The receive chain, muted across the turn-on. */
    method ConfigureChain(setup: ReceiveSetup) returns (r: Result<(), DriverError>)
      requires Valid()
      modifies this`state, bus
      ensures Valid() && Quiet(old(state), old(bus.Core()), old(bus.log), r)
      ensures r.Ok? ==> HoldsSquelch(bus.regs, setup.squelch)
      ensures r.Ok? ==> bus.regs[0x43] == old(bus.regs)[0x43]
    {
      hide WellFormed, KeepsBut, HoldsSquelch, HoldsAudio;
      ghost var r0 := bus.regs;
      var _ :- ConfigureDemodulator(setup.modulation);
      ghost var r1 := bus.regs;
      KeepsAt(r0, r1, DEMODULATOR_REGISTERS, 0x43);
      var _ :- ConfigureAgc(setup.modulation);
      ghost var r2 := bus.regs;
      KeepsAt(r1, r2, GAIN_REGISTERS, 0x43);
      var _ :- ConfigureSquelch(setup.squelch);
      ghost var r3 := bus.regs;
      KeepsAt(r2, r3, SQUELCH_REGISTERS, 0x43);
      r := MuteAndPower(setup);
      if r.Ok? {
        KeepsAt(r3, bus.regs, {0x47, 0x37}, 0x43);
        SquelchSurvives(r3, bus.regs, {0x47, 0x37}, setup.squelch);
      }
    }

    method MuteAndPower(setup: ReceiveSetup) returns (r: Result<(), DriverError>)
      requires Valid()
      modifies this`state, bus
      ensures Valid() && Quiet(old(state), old(bus.Core()), old(bus.log), r)
      ensures r.Ok? ==> KeepsBut(old(bus.regs), bus.regs, {0x47, 0x37})
    {
      hide WellFormed, KeepsBut, HoldsAudio;
      ghost var from := bus.regs;
      var _ :- WriteAfOutput(setup.modulation, Mute);
      KeepsWider(from, bus.regs, {0x47}, {0x47, 0x37});
      r := SetIn(REG_POWER_BLOCKS, profile.receivePowerBlocks, from, {0x47, 0x37});
    }

    /** Selects the filter path, then enables reception. */
    method OpenFrontEnd(f: Frequency) returns (r: Result<(), DriverError>)
      requires Valid()
      modifies this`state, this`gpioOut, bus
      ensures Valid() && bus.log == Counted(old(bus.log), r.Ok?) && PaOn(gpioOut) == PaOn(old(gpioOut))
      ensures r.Ok? ==> state == old(state) && gpioOut == WithReceive(old(gpioOut), f)
                        && bus.Core() == old(bus.Core()).(gpio := gpioOut)
      ensures r.Err? ==> r.error == Bus && state == Faulted
      ensures r.Ok? ==> KeepsBut(old(bus.regs), bus.regs, {0x33})
    {
      hide WellFormed, With, WithPath, PaOn, KeepsBut;
      ReceiverKeepsEnable(gpioOut, f);
      ghost var r0 := bus.regs;
      var _ :- SelectFilterPath(f);
      ghost var r1 := bus.regs;
      r := WriteGpio(With(gpioOut, GPIO_RX_ENABLE));
      if r.Ok? {
        KeepsJoins(r0, r1, bus.regs, {0x33}, {0x33});
        assert {0x33} + {0x33} == {0x33};
      }
    }

    /** Tone decoding, interrupts, and the audio asked for. */
    method Listen(setup: ReceiveSetup) returns (r: Result<(), DriverError>)
      requires Valid()
      modifies this`state, this`toneFound, bus
      ensures Valid() && Quiet(old(state), old(bus.Core()), old(bus.log), r)
      ensures r.Ok? ==> KeepsBut(old(bus.regs), bus.regs, TONE_REGISTERS + {0x3F, 0x02, 0x47})
      ensures r.Ok? ==> HoldsTone(profile, bus.regs, setup.tone)
                        && HoldsAudio(profile, bus.regs, setup.modulation, setup.af)
    {
      hide WellFormed, KeepsBut, HoldsTone, HoldsAudio;
      ghost var r0 := bus.regs;
      var _ :- ConfigureSubAudio(setup.tone);
      ghost var r1, touched := bus.regs, {0x3F, 0x02, 0x47};
      KeepsNothing(r1, touched);
      var _ :- SetIn(REG_INTERRUPT_MASK, InterruptMask(setup.tone), r1, touched);
      var _ :- SetIn(REG_INTERRUPT_FLAGS, 0, r1, touched);
      toneFound := false;
      ghost var r2 := bus.regs;
      r := WriteAfOutput(setup.modulation, setup.af);
      if r.Ok? {
        KeepsWider(r2, bus.regs, {0x47}, touched);
        KeepsJoins(r1, r2, bus.regs, touched, touched);
        assert touched + touched == touched;
        ToneSurvives(profile, r1, bus.regs, touched, setup.tone);
        KeepsJoins(r0, r1, bus.regs, TONE_REGISTERS, touched);
      }
    }

    static function InterruptMask(tone: Tone): bv16 {
      match tone
      case NoTone => 0x040C
      case Ctcss(_) => 0x04CC
      case Dcs(_, _) => 0x070C
    }

    method Sleep() returns (r: Result<(), DriverError>)
      requires Valid()
      modifies this, bus
      ensures Valid() && Settled(Operation.Sleep, old(Now()), r)
      ensures r.Ok? ==> bus.regs[0x37] == 0x1D00 && bus.regs[0x30] == 0x0000
    {
      hide WellFormed;
      if !AtRest(state) { return Err(InvalidState(state)); }
      var _ :- Write(REG_MODE_CONTROL, MODE_STANDBY);
      var _ :- Set(REG_POWER_BLOCKS, 0x1D00);
      state := Standby;
      return Ok(());
    }

    method SelectReceivePath(f: Frequency) returns (r: Result<(), DriverError>)
      requires Valid()
      modifies this, bus
      ensures Valid() && Settled(Operation.SelectReceivePath(f), old(Now()), r)
    {
      hide WellFormed, WithPath, PaOn;
      if !AtRest(state) { return Err(InvalidState(state)); }
      ReceiverKeepsEnable(gpioOut, f);
      r := SelectFilterPath(f);
    }

    // -------------------------------------------------------------- While receiving

    method SetAfOutput(modulation: Modulation, af: AfOutput) returns (r: Result<(), DriverError>)
      requires Valid()
      modifies this, bus
      ensures Valid() && Settled(Watch, old(Now()), r)
      ensures r.Ok? ==> HoldsAudio(profile, bus.regs, modulation, af)
    {
      hide WellFormed, HoldsAudio;
      if !state.Receiving? { return Err(InvalidState(state)); }
      r := WriteAfOutput(modulation, af);
    }

    method ReadBack(which: Readback) returns (r: Result<bv16, DriverError>)
      requires Valid()
      modifies this, bus
      ensures Valid() && Settled(Watch, old(Now()), Dropped(r))
    {
      hide WellFormed;
      if !state.Receiving? { return Err(InvalidState(state)); }
      r := Read(match which
                case FilterBandwidth => REG_FILTER_BANDWIDTH
                case SquelchNoise => REG_SQUELCH_NOISE
                case SquelchRssi => REG_SQUELCH_RSSI
                case AudioOutput => REG_AF_OUTPUT);
    }

    /** The strength in half decibels and the carrier squelch. */
    method ReceiveStatus() returns (r: Result<(int, bool), DriverError>)
      requires Valid()
      modifies this`state, bus
      ensures Valid() && Settled(Watch, old(Now()), Dropped(r))
    {
      hide WellFormed;
      if !state.Receiving? { return Err(InvalidState(state)); }
      var rssi :- Read(REG_RSSI);
      var squelch :- Read(REG_SQUELCH_STATUS);
      return Ok(((rssi & 0x01FF) as int - 320, squelch & 0x0002 != 0));
    }

    /** Retunes only the synthesiser and reads the carrier there. */
    method Probe(f: Frequency) returns (r: Result<bv16, DriverError>)
      requires Valid()
      modifies this, bus
      ensures Valid() && Settled(Operation.Probe(f), old(Now()), Dropped(r))
    {
      ghost var before := Now();
      var _ :- MoveTo(f);
      ghost var moved := Now();
      r := ProbeAgain();
      WatchAfterProbe(profile, before, f, moved, Now(), Dropped(r));
    }

    /** The filter path is written only on a crossing. */
    method MoveTo(f: Frequency) returns (r: Result<(), DriverError>)
      requires Valid()
      modifies this`state, this`gpioOut, bus
      ensures Valid() && Settled(Operation.Probe(f), old(Now()), r)
      ensures r.Ok? ==> HertzOf(bus.regs) == f && state == Receiving(f)
    {
      hide WordsOf, WellFormed, With, Without, WithPath, PaOn, HertzOf;
      if !state.Receiving? { return Err(InvalidState(state)); }
      if !Aligned(f) { return Err(NotTenHertzAligned); }
      ghost var before := Now();
      r := Hop(f, Crosses(state.frequency, f));
      if r.Ok? {
        state := Receiving(f);
        CoreTellsHertz(bus.regs, f);
      }
      HopIsProbe(profile, before, f, Now(), if r.Ok? then None else Some(r.error));
    }

    method Hop(f: Frequency, crossed: bool) returns (r: Result<(), DriverError>)
      requires Valid()
      modifies this`state, this`gpioOut, bus
      ensures Valid() && (r.Ok? ==> gpioOut == if crossed then WithPath(old(gpioOut), f) else old(gpioOut))
      ensures PaOn(gpioOut) == PaOn(old(gpioOut))
      ensures StartsOnce(old(state),
                         old(bus.Core()).(mode := Without(profile.receiveMode, MODE_AF_DAC),
                                          gpio := if crossed then WithPath(old(gpioOut), f) else old(bus.Core()).gpio,
                                          low := WordsOf(f).low, high := WordsOf(f).high),
                         old(bus.log), r)
    {
      hide WordsOf, WellFormed, With, Without, WithPath, PaOn;
      ReceiverKeepsEnable(gpioOut, f);
      if crossed {
        var _ :- SelectFilterPath(f);
      }
      r := Retune(f);
    }

    /** Loads a frequency and turns the receiver off and on with its audio output clear. */
    method Retune(f: Frequency) returns (r: Result<(), DriverError>)
      requires Valid()
      modifies this`state, bus
      ensures Valid()
      ensures StartsOnce(old(state), old(bus.Core()).(mode := Without(profile.receiveMode, MODE_AF_DAC),
                                                      low := WordsOf(f).low, high := WordsOf(f).high),
                         old(bus.log), r)
    {
      ModesAreApart(profile);
      hide WordsOf, IsTransmitWord, IsReceiveWord, WellFormed, Without;
      var _ :- LoadFrequency(f);
      r := Cycle(Without(profile.receiveMode, MODE_AF_DAC));
    }

    /** Waits a bounded while for the synthesiser, then reads the strength twice. */
    method ProbeAgain() returns (r: Result<bv16, DriverError>)
      requires Valid()
      modifies this`state, bus
      ensures Valid() && Settled(Watch, old(Now()), Dropped(r))
    {
      hide WellFormed;
      if !state.Receiving? { return Err(InvalidState(state)); }
      for i := 0 to PROBE_GLITCH_READS
        invariant Valid() && Now() == old(Now())
      {
        var glitch :- Read(REG_GLITCH);
        if glitch & 0x00FF < PROBE_GLITCH_SETTLED { break; }
      }
      var _ :- Read(REG_RSSI);
      var rssi :- Read(REG_RSSI);
      return Ok(rssi & 0x01FF);
    }

    /** Samples the strength, glitch, noise and squelch, and the tone where one is required. */
    method ReceiveMetrics(tone: Tone) returns (r: Result<(int, bool, bv16, bv16, Option<bool>), DriverError>)
      requires Valid()
      modifies this, bus
      ensures Valid() && Settled(Watch, old(Now()), Dropped(r))
    {
      hide WellFormed;
      var status :- ReceiveStatus();
      var glitch :- Read(REG_GLITCH);
      var noise :- Read(REG_NOISE);
      var matched: Option<bool> := None;
      if tone.Ctcss? {
        var found :- ToneStatus(0x0040, 0x0080, false);
        matched := Some(found);
      } else if tone.Dcs? {
        var found :- ToneStatus(0x0100, 0x0200, true);
        matched := Some(found);
      }
      return Ok((status.0, status.1, glitch & 0x00FF, noise & 0x007F, matched));
    }

    /** Works through what the chip has to report; losing the tone wins over finding it. */
    method ToneStatus(matched: bv16, gone: bv16, positiveCode: bool) returns (r: Result<bool, DriverError>)
      requires Valid() && state.Receiving?
      modifies this`state, this`toneFound, bus
      ensures Valid() && Settled(Watch, old(Now()), Dropped(r))
      ensures r.Ok? ==> r.value == toneFound
    {
      hide WellFormed;
      for i := 0 to MAX_INTERRUPTS_PER_SAMPLE
        invariant Valid() && Now() == old(Now())
      {
        var pending :- Read(REG_SQUELCH_STATUS);
        if pending & 1 == 0 { break; }
        var _ :- Set(REG_INTERRUPT_FLAGS, 0);
        var flags :- Read(REG_INTERRUPT_FLAGS);
        if flags & matched != 0 {
          toneFound := !positiveCode;
          if positiveCode {
            var code :- Read(REG_SQUELCH_STATUS);
            toneFound := (code >> 14) & 3 == 1;
          }
        }
        if flags & gone != 0 { toneFound := false; }
      }
      return Ok(toneFound);
    }

    method StartToneScan() returns (r: Result<(), DriverError>)
      requires Valid()
      modifies this, bus
      ensures Valid() && Settled(Operation.StartToneScan, old(Now()), r)
      ensures r.Ok? ==> bus.regs[0x51] == 0x0300 && bus.regs[0x37] == profile.receivePowerBlocks
    {
      ModesAreApart(profile);
      hide IsTransmitWord, IsReceiveWord, WellFormed;
      if !state.Receiving? { return Err(InvalidState(state)); }
      var _ :- Set(REG_SUB_AUDIO_CONTROL, 0x0300);
      var _ :- Set(REG_POWER_BLOCKS, profile.receivePowerBlocks);
      r := Cycle(profile.receiveMode);
    }

    /** Starts the frequency scan with both amplifiers off. */
    method StartFrequencyScan() returns (r: Result<(), DriverError>)
      requires Valid()
      modifies this, bus
      ensures Valid() && Settled(Operation.StartFrequencyScan, old(Now()), r)
      ensures r.Ok? ==> bus.regs[0x32] == 0x0245
    {
      hide WellFormed, Without, PaOn;
      if !state.Receiving? { return Err(InvalidState(state)); }
      ReceiverKeepsEnable(gpioOut, 1);
      var _ :- WriteGpio(Without(gpioOut, LNA_BITS));
      r := Set(REG_FREQUENCY_SCAN, FREQUENCY_SCAN_ON);
    }

    method RestartFrequencyScan() returns (r: Result<(), DriverError>)
      requires Valid()
      modifies this, bus
      ensures Valid() && Settled(Watch, old(Now()), r)
      ensures r.Ok? ==> bus.regs[0x32] == 0x0245
    {
      hide WellFormed;
      if !state.Receiving? { return Err(InvalidState(state)); }
      var _ :- Set(REG_FREQUENCY_SCAN, FREQUENCY_SCAN_OFF);
      r := Set(REG_FREQUENCY_SCAN, FREQUENCY_SCAN_ON);
    }

    /** The strongest carrier found, or nothing while the scan runs. */
    method FrequencyScanResult() returns (r: Result<Option<Frequency>, DriverError>)
      requires Valid()
      modifies this, bus
      ensures Valid() && Settled(Watch, old(Now()), Dropped(r))
    {
      hide WellFormed;
      if !state.Receiving? { return Err(InvalidState(state)); }
      var high :- Read(REG_SCAN_HIGH);
      if high & 0x8000 != 0 { return Ok(None); }
      var low :- Read(REG_SCAN_LOW);
      var hertz := ((high & 0x07FF) as int * 0x1_0000 + low as int) * 10;
      return Ok(if 1 <= hertz <= U32_MAX then Some(hertz) else None);
    }

    method StopScan() returns (r: Result<(), DriverError>)
      requires Valid()
      modifies this, bus
      ensures Valid() && Settled(Operation.StopScan, old(Now()), r)
      ensures r.Ok? ==> bus.regs[0x32] == 0x0244 && bus.regs[0x30] == 0x0000
    {
      hide WellFormed;
      if !AtRest(state) { return Err(InvalidState(state)); }
      var _ :- Set(REG_FREQUENCY_SCAN, FREQUENCY_SCAN_OFF);
      var _ :- Write(REG_MODE_CONTROL, MODE_STANDBY);
      state := Standby;
      return Ok(());
    }

    // -------------------------------------------------------------- Transmit

    /** Zeroes the bias, then switches the power amplifier off, from any state. */
    method DisablePa() returns (r: Result<(), DriverError>)
      requires Valid()
      modifies this, bus
      ensures Valid() && Settled(Operation.DisablePa, old(Now()), r)
    {
      hide WellFormed, With, Without, PaControl, PaOn;
      RestingWordsAreUnbiased();
      EnableSwitches(gpioOut, profile.gpioRedLed);
      var _ :- Write(REG_PA_CONTROL, PaControl(0, 0));
      r := WriteGpio(Without(gpioOut, With(GPIO_PA_ENABLE, profile.gpioRedLed)));
    }

    /** Mutes the receiver and tunes for transmission without entering it. */
    method PrepareTransmit(request: TxRequest, token: Authorisation) returns (r: Result<(), DriverError>)
      requires Valid()
      modifies this, bus
      ensures Valid() && Settled(Operation.PrepareTransmit(request, token), old(Now()), r)
      ensures r.Ok? ==> HertzOf(bus.regs) == request.transmit
                        && bus.regs[0x43] == BandwidthWord(profile, request.bandwidth)
    {
      hide WordsOf, WellFormed, Without, PaOn, HertzOf;
      if !token.approves(request) { return Err(AuthorisationRequestMismatch); }
      if !AtRest(state) { return Err(InvalidState(state)); }
      var f := request.transmit;
      if !Aligned(f) { return Err(NotTenHertzAligned); }
      var _ :- TuneSilently(f, request.bandwidth);
      CoreTellsHertz(bus.regs, f);
      state := PreparedTransmit(f);
      return Ok(());
    }

    method TuneSilently(f: Frequency, bandwidth: Bandwidth) returns (r: Result<(), DriverError>)
      requires Valid()
      modifies this`state, this`gpioOut, bus
      ensures Valid() && bus.log == Counted(old(bus.log), r.Ok?) && PaOn(gpioOut) == PaOn(old(gpioOut))
      ensures r.Ok? ==> state == old(state) && gpioOut == Without(old(gpioOut), GPIO_RX_ENABLE)
                        && bus.Core() == old(bus.Core()).(gpio := gpioOut, low := WordsOf(f).low,
                                                          high := WordsOf(f).high)
      ensures r.Err? ==> r.error == Bus && state == Faulted
      ensures r.Ok? ==> bus.regs[0x43] == BandwidthWord(profile, bandwidth)
    {
      hide WordsOf, WellFormed, Without, PaOn, KeepsBut;
      ReceiverKeepsEnable(gpioOut, f);
      var _ :- Hush();
      var _ :- WriteGpio(Without(gpioOut, GPIO_RX_ENABLE));
      var _ :- Set(REG_FILTER_BANDWIDTH, BandwidthWord(profile, bandwidth));
      ghost var r0 := bus.regs;
      var _ :- LoadFrequency(f);
      KeepsAt(r0, bus.regs, {0x38, 0x39}, 0x43);
      r := PrepareAudio();
    }

    /** Tone detection off and the output muted. */
    method Hush() returns (r: Result<(), DriverError>)
      requires Valid()
      modifies this`state, bus
      ensures Valid() && Quiet(old(state), old(bus.Core()), old(bus.log), r)
    {
      hide WellFormed;
      var _ :- Set(REG_DTMF_CONTROL, 0);
      r := WriteAfOutput(Fm, Mute);
    }

    /** The transmit audio path, with voice effects off. */
    method PrepareAudio() returns (r: Result<(), DriverError>)
      requires Valid()
      modifies this`state, bus
      ensures Valid() && Quiet(old(state), old(bus.Core()), old(bus.log), r)
      ensures r.Ok? ==> bus.regs[0x43] == old(bus.regs)[0x43] && bus.regs[0x7D] == profile.txMicGain
    {
      hide WellFormed;
      var compander :- Read(REG_AM_DEMODULATOR);
      var _ :- Set(REG_AM_DEMODULATOR, compander & !0x000A);
      r := Set(REG_MIC_GAIN, profile.txMicGain);
    }

    /** Keys the request that was prepared. */
    method EnableTransmit(request: TxRequest, token: Authorisation) returns (r: Result<(), DriverError>)
      requires Valid()
      modifies this, bus
      ensures Valid() && Settled(Operation.EnableTransmit(request, token), old(Now()), r)
      ensures r.Ok? ==> IsUnmuted() && bus.regs[0x30] == 0xC1FE
    {
      ModesAreApart(profile);
      hide WordsOf, WellFormed, IsTransmitWord, IsUnmuted;
      if !token.approves(request) { return Err(AuthorisationRequestMismatch); }
      var f := request.transmit;
      if state != PreparedTransmit(f) { return Err(InvalidState(state)); }
      var _ :- Key();
      state := Transmitting(f, token.class_);
      return Ok(());
    }

    method Key() returns (r: Result<(), DriverError>)
      requires Valid()
      modifies this`state, bus
      ensures Valid()
      ensures StartsOnce(old(state),
                         old(bus.Core()).(mode := MODE_TRANSMIT_K5,
                                          pa := if profile.txClearsBiasFirst then 0 else old(bus.Core()).pa),
                         old(bus.log), r)
      ensures r.Ok? ==> IsUnmuted()
    {
      hide WellFormed, KeepsBut;
      var _ :- UnmuteTransmitter();
      ghost var ready := bus.regs;
      r := Cycle(MODE_TRANSMIT_K5);
      if r.Ok? {
        KeepsAt(ready, bus.regs, {0x30}, 0x37);
        KeepsAt(ready, bus.regs, {0x30}, 0x50);
        KeepsAt(ready, bus.regs, {0x30}, 0x52);
      }
    }

    /** The transmitter's blocks are powered and its audio is not muted. */
    predicate IsUnmuted()
      requires |bus.regs| == 0x80
      reads bus
    {
      bus.regs[0x37] == profile.txPowerBlocks && bus.regs[0x50] == profile.txUnmute && bus.regs[0x52] == 0x028F
    }

    /** The transmit chain, short of entering transmission. */
    method UnmuteTransmitter() returns (r: Result<(), DriverError>)
      requires Valid()
      modifies this`state, bus
      ensures Valid()
      ensures Quiet(old(state), old(bus.Core()).(pa := if profile.txClearsBiasFirst then 0 else old(bus.Core()).pa),
                    old(bus.log), r)
      ensures r.Ok? ==> IsUnmuted()
    {
      hide WellFormed;
      var _ :- ReadyMicrophone();
      if profile.txClearsBiasFirst {
        var _ :- Write(REG_PA_CONTROL, 0);
      }
      var _ :- Set(REG_POWER_BLOCKS, profile.txPowerBlocks);
      r := Set(REG_TX_52, 0x028F);
    }

    method ReadyMicrophone() returns (r: Result<(), DriverError>)
      requires Valid()
      modifies this`state, bus
      ensures Valid() && Quiet(old(state), old(bus.Core()), old(bus.log), r)
      ensures r.Ok? ==> bus.regs[0x50] == profile.txUnmute
    {
      hide WellFormed;
      var _ :- WriteAfOutput(Fm, Mute);
      var agc :- Read(REG_AGC_CONTROL);
      var _ :- Set(REG_AGC_CONTROL, (agc & !0x0038) | 0x0028);
      r := Set(REG_TX_MUTE, profile.txUnmute);
    }

    /** Whether the current request is the one being transmitted under this authority. */
    function CheckTransmitting(request: TxRequest, token: Authorisation): Result<Frequency, DriverError>
      reads this
    {
      if !token.approves(request) then Err(AuthorisationRequestMismatch)
      else if state != Transmitting(request.transmit, token.class_) then Err(InvalidState(state))
      else Ok(request.transmit)
    }

    method EnablePa(request: TxRequest, token: Authorisation) returns (r: Result<(), DriverError>)
      requires Valid()
      modifies this, bus
      ensures Valid() && Settled(Operation.EnablePa(request, token), old(Now()), r)
    {
      hide WellFormed, With, WithPath, PaOn;
      var f :- CheckTransmitting(request, token);
      ReceiverKeepsEnable(gpioOut, f);
      EnableSwitches(WithPath(gpioOut, f), profile.gpioRedLed);
      var _ :- SelectFilterPath(f);
      r := WriteGpio(With(gpioOut, With(GPIO_PA_ENABLE, profile.gpioRedLed)));
    }

    method SetPaBias(request: TxRequest, token: Authorisation, bias: bv8) returns (r: Result<(), DriverError>)
      requires Valid()
      modifies this, bus
      ensures Valid() && Settled(Operation.SetPaBias(request, token, bias), old(Now()), r)
    {
      hide WellFormed, PaControl;
      var f :- CheckTransmitting(request, token);
      r := Write(REG_PA_CONTROL, PaControl(bias, f));
    }

    method SetTransmitTone(request: TxRequest, token: Authorisation, tone: Tone) returns (r: Result<(), DriverError>)
      requires Valid()
      modifies this, bus
      ensures Valid() && Settled(SetTone(request, token), old(Now()), r)
      ensures r.Ok? ==> if tone == NoTone then bus.regs[0x51] == 0 else HoldsTone(profile, bus.regs, tone)
    {
      hide WellFormed, HoldsTone;
      var _ :- CheckTransmitting(request, token);
      if tone == NoTone {
        r := Set(REG_SUB_AUDIO_CONTROL, 0);
      } else {
        r := ConfigureSubAudio(tone);
      }
    }
  }

  /** What a hop to a frequency leaves is what a probe of it does. */
  lemma HopIsProbe(p: Profile, before: Radio, f: Frequency, after: Radio, error: Option<DriverError>)
    requires before.state.Receiving? && Aligned(f)
    requires var gpio := WithPath(before.gpioOut, f);
             var core := before.core.(mode := Without(p.receiveMode, MODE_AF_DAC),
                                      gpio := if Crosses(before.state.frequency, f) then gpio else before.core.gpio,
                                      low := WordsOf(f).low, high := WordsOf(f).high);
             var started := WithStart(before.log, Start(core.mode, Words(core.low, core.high)));
             match error
             case None =>
               after == Radio(Receiving(f), if Crosses(before.state.frequency, f) then gpio else before.gpioOut, core,
                              started)
             case Some(e) =>
               && e == Bus && after.state == Faulted
               && (after.log == Counted(before.log, false) || after.log == Counted(started, false))
               && PaOn(after.gpioOut) == PaOn(before.gpioOut)
    ensures Outcome(p, before, Operation.Probe(f), after, error)
  {
    hide WordsOf, With, Without, WithPath, Crosses, PaOn;
  }

  lemma RefusedSetup(p: Profile, before: Radio, setup: ReceiveSetup)
    requires !AtRest(before.state) || !Aligned(setup.frequency)
    ensures Outcome(p, before, Operation.ConfigureReceive(setup), before,
                    Some(if AtRest(before.state) then NotTenHertzAligned else InvalidState(before.state)))
  {}

  lemma ReconfiguredIsConfigured(p: Profile, before: Radio, setup: ReceiveSetup, after: Radio,
                                 error: Option<DriverError>)
    requires AtRest(before.state) && Aligned(setup.frequency)
    requires var f, gpio := setup.frequency, WithReceive(before.gpioOut, setup.frequency);
             var core := before.core.(mode := p.receiveMode, gpio := gpio, low := WordsOf(f).low,
                                      high := WordsOf(f).high);
             var started := WithStart(before.log, Start(core.mode, Words(core.low, core.high)));
             match error
             case None => after == Radio(Receiving(f), gpio, core, started)
             case Some(e) =>
               && e == Bus && after.state == Faulted
               && (after.log == Counted(before.log, false) || after.log == Counted(started, false))
               && PaOn(after.gpioOut) == PaOn(before.gpioOut)
    ensures Outcome(p, before, Operation.ConfigureReceive(setup), after, error)
  {
    hide WordsOf, With, Without, WithReceive, PaOn;
  }

  /** Reading after a probe is part of the probe, whichever of the two fails. */
  lemma WatchAfterProbe(p: Profile, before: Radio, f: Frequency, moved: Radio, after: Radio, r: Result<(), DriverError>)
    requires Outcome(p, before, Operation.Probe(f), moved, None)
    requires Outcome(p, moved, Watch, after, if r.Ok? then None else Some(r.error))
    ensures Outcome(p, before, Operation.Probe(f), after, if r.Ok? then None else Some(r.error))
  {
    hide WordsOf, With, Without, WithPath, PaOn;
    ReceiverKeepsEnable(before.gpioOut, f);
  }

  /** Whether a call passed, apart from what it read. */
  function Dropped<T>(r: Result<T, DriverError>): Result<(), DriverError> {
    if r.Ok? then Ok(()) else Err(r.error)
  }
}
