/** What the transceiver driver promises: what each operation leaves behind when every bus
    operation passes, when it is refused, and when the bus fails under it. */
module TransceiverState {
  import opened Wrappers
  import opened ChannelPlan

  type Address = x: int | 0 <= x < 0x80

  const REG_SOFT_RESET: Address := 0x00
  const REG_MODE_CONTROL: Address := 0x30
  const REG_GPIO_OUT: Address := 0x33
  const REG_PA_CONTROL: Address := 0x36
  const REG_FREQUENCY_LOW: Address := 0x38
  const REG_FREQUENCY_HIGH: Address := 0x39

  const MODE_STANDBY: bv16 := 0x0000
  const MODE_RECEIVE: bv16 := 0xBEF1
  const MODE_TRANSMIT: bv16 := 0x80FE
  const MODE_TRANSMIT_K5: bv16 := 0xC1FE
  const MODE_AF_DAC: bv16 := 0x0200

  const GPIO_OUT_DEFAULT: bv16 := 0x9000
  const GPIO_RX_ENABLE: bv16 := 0x0040
  const GPIO_PA_ENABLE: bv16 := 0x0020
  const GPIO_UHF_LNA: bv16 := 0x0008
  const GPIO_VHF_LNA: bv16 := 0x0004
  const LNA_BITS: bv16 := 0x000C
  const FILTER_PATH_BOUNDARY_HZ: int := 280_000_000

  function With(word: bv16, bits: bv16): bv16 { word | bits }

  function Without(word: bv16, bits: bv16): bv16 { word & !bits }

  predicate IsTransmitWord(word: bv16) { word == MODE_TRANSMIT || word == MODE_TRANSMIT_K5 }

  // ---------------------------------------------------------------- Chip variants

  type Table = seq<(u8, bv16)>

  datatype Profile = Profile(
    initPowerBlocks: bv16, receivePowerBlocks: bv16, receiveMode: bv16, afFixedBits: bv16, afLevel: bv16,
    micGain: bv16, bandwidthWide: bv16, bandwidthNarrow: bv16, subAudioCtcss: bv16, subAudioCdcss: bv16,
    agcFm: Table, agcAm: Table, agcAutoAfterInit: bool, extraInit: Table, txUnmute: bv16, txPowerBlocks: bv16,
    txClearsBiasFirst: bool, gpioRedLed: bv16, demodulatorTuning: bool, txMicGain: bv16)

  /** The registers a driver state speaks of, and the reset that clears them all. */
  predicate IsCore(address: int) {
    address == REG_SOFT_RESET || address == REG_MODE_CONTROL || address == REG_GPIO_OUT || address == REG_PA_CONTROL
    || address == REG_FREQUENCY_LOW || address == REG_FREQUENCY_HIGH
  }

  predicate PlainTable(table: Table) {
    forall entry :: entry in table ==> entry.0 < 0x80 && !IsCore(entry.0)
  }

  /** The registers a gain table may set. */
  predicate IsGain(address: int) { 0x10 <= address <= 0x14 || address == 0x49 || address == 0x7B || address == 0x7E }

  predicate GainTable(table: Table) {
    forall entry :: entry in table ==> IsGain(entry.0)
  }

  /** The tables write only addressable registers no state speaks of, and receiving is neither
      transmitting nor standing by, with the audio output on or off. */
  predicate WellFormed(p: Profile) {
    && PlainTable(p.agcFm) && PlainTable(p.agcAm) && PlainTable(p.extraInit)
    && GainTable(p.agcFm) && GainTable(p.agcAm)
    && !IsTransmitWord(p.receiveMode) && !IsTransmitWord(Without(p.receiveMode, MODE_AF_DAC))
    && p.receiveMode != MODE_STANDBY && Without(p.receiveMode, MODE_AF_DAC) != MODE_STANDBY
  }

  function Bk4819AgcFm(): Table {
    [(0x13, 0x03BE), (0x12, 0x037B), (0x11, 0x027B), (0x10, 0x007A), (0x14, 0x0019), (0x49, 0x2A38), (0x7B, 0x8420),
     (0x7E, 0x0000)]
  }

  function Bk4819AgcAm(): Table {
    [(0x13, 0x03BE), (0x12, 0x037B), (0x11, 0x027B), (0x10, 0x007A), (0x14, 0x0000), (0x49, 0x1920), (0x7B, 0x8420),
     (0x7E, 0x0000)]
  }

  function Bk4819ExtraInit(): Table {
    [(0x19, 0x1041), (0x1F, 0x5454), (0x3E, 0xA037)]
  }

  function Bk4829Agc(): Table {
    [(0x10, 0x0318), (0x11, 0x033A), (0x12, 0x03DB), (0x13, 0x03DF), (0x14, 0x0210), (0x49, 0x2AB2), (0x7B, 0x73DC)]
  }

  function Bk4829ExtraInit(): Table {
    [(0x40, 0x3516), (0x1C, 0x07C0), (0x1D, 0xE555), (0x1E, 0x4C58), (0x1F, 0xC65A), (0x3E, 0x94C6), (0x73, 0x4691),
     (0x77, 0x88EF), (0x19, 0x1041), (0x28, 0x0B40), (0x29, 0xAA00), (0x2A, 0x6600), (0x2C, 0x1822), (0x2F, 0x9890),
     (0x53, 0x2028), (0x7E, 0x303E), (0x46, 0x600A), (0x4A, 0x5430), (0x07, 0x61CE)]
  }

  function Bk4819Profile(): Profile {
    Profile(
      0x1D0F, 0x1F0F, 0xBEF1, 0x6040, 0xB3A8, 0xE940, 0x3628, 0x3648, 0x904A, 0x8033, Bk4819AgcFm(), Bk4819AgcAm(),
      true, Bk4819ExtraInit(), 0x3B20, 0x1D0F, false, 0x0002, false, 0xE95F)
  }

  function Bk4829Profile(): Profile {
    Profile(
      0x9D1F, 0x9F1F, 0xBFF1, 0x6042, 0x33A8, 0xE920, 0x3028, 0x4048, 0x9040, 0xA033, Bk4829Agc(), Bk4829Agc(),
      false, Bk4829ExtraInit(), 0x3B18, 0x9D1F, true, 0x0001, true, 0xE960)
  }

  lemma ShippedProfilesAreWellFormed()
    ensures WellFormed(Bk4819Profile()) && WellFormed(Bk4829Profile())
  {
    hide PlainTable, GainTable, Bk4819AgcFm, Bk4819AgcAm, Bk4819ExtraInit, Bk4829Agc, Bk4829ExtraInit;
    BareReceiveWords();
    GainTablesAreGain();
    Bk4819TablesArePlain();
    Bk4829TablesArePlain();
  }

  lemma GainTablesAreGain()
    ensures GainTable(Bk4819AgcFm()) && GainTable(Bk4819AgcAm()) && GainTable(Bk4829Agc())
  {}

  lemma Bk4819TablesArePlain()
    ensures PlainTable(Bk4819AgcFm()) && PlainTable(Bk4819AgcAm()) && PlainTable(Bk4819ExtraInit())
  {}

  lemma Bk4829TablesArePlain()
    ensures PlainTable(Bk4829Agc()) && PlainTable(Bk4829ExtraInit())
  {
    assert PlainTable(Bk4829Agc());
    Bk4829InitIsPlain();
  }

  lemma Bk4829InitIsPlain()
    ensures PlainTable(Bk4829ExtraInit())
  {
    hide Bk4829Agc;
    forall entry | entry in Bk4829ExtraInit() ensures entry.0 < 0x80 && !IsCore(entry.0) {}
  }

  lemma BareReceiveWords()
    ensures 0xBEF1 & !(0x0200 as bv16) == 0xBCF1
    ensures 0xBFF1 & !(0x0200 as bv16) == 0xBDF1
  {}

  // ---------------------------------------------------------------- State

  datatype TxClass = Amateur | LicenceFreePlan

  datatype DriverState =
    | Unknown
    | Standby
    | Receiving(frequency: Frequency)
    | PreparedTransmit(frequency: Frequency)
    | Transmitting(frequency: Frequency, class_: TxClass)
    | Faulted

  /** The registers an operation is answerable for. */
  datatype Core = Core(mode: bv16, gpio: bv16, pa: bv16, low: bv16, high: bv16)

  /** The words a frequency is loaded as. */
  datatype Words = Words(low: bv16, high: bv16)

  /** One write of a mode other than standby, passed or not: the mode, and the frequency
      loaded as it was written. */
  datatype Start = Start(mode: bv16, words: Words)

  /** What has been written that could radiate: every start there has been, and every word
      written to the amplifier's control that gives it a bias; and how often the bus failed. */
  datatype Log = Log(starts: seq<Start>, biases: seq<bv16>, failures: nat)

  /** The log after a transfer that passed or failed. */
  function Counted(log: Log, ok: bool): Log { if ok then log else log.(failures := log.failures + 1) }

  /** An amplifier word of no bias: the upper byte holds it. */
  predicate IsUnbiased(word: bv16) { word & 0xFF00 == 0 }

  /** The words written apart from a request's own bias give none. */
  lemma RestingWordsAreUnbiased()
    ensures IsUnbiased(0) && IsUnbiased(PA_CONTROL_INIT) && IsUnbiased(PaControl(0, 0))
  {}

  function WithBias(log: Log, word: bv16): Log {
    if IsUnbiased(word) then log else log.(biases := log.biases + [word])
  }

  function WithStart(log: Log, start: Start): Log { log.(starts := log.starts + [start]) }

  /** The driver and the chip: the state it reports, its copy of the output word, the core
      registers, and the log of writes. */
  datatype Radio = Radio(state: DriverState, gpioOut: bv16, core: Core, log: Log)

  function WordsOf(f: Frequency): Words { Words((f / 10 % 0x1_0000) as bv16, (f / 10 / 0x1_0000) as bv16) }

  /** Exactly a multiple of the chip's 10 Hz unit. */
  predicate Aligned(f: Frequency) { f % 10 == 0 }

  predicate Loaded(c: Core, f: Frequency) { Aligned(f) && WordsOf(f) == Words(c.low, c.high) }

  predicate IsReceiveWord(p: Profile, word: bv16) {
    word == MODE_RECEIVE || word == p.receiveMode || word == Without(p.receiveMode, MODE_AF_DAC)
  }

  /** The mode the chip is in was entered with the frequency it has loaded now. */
  predicate Entered(r: Radio) {
    r.log.starts != [] && r.log.starts[|r.log.starts| - 1] == Start(r.core.mode, Words(r.core.low, r.core.high))
  }

  /** What a reported state says of the chip. */
  predicate Truthful(p: Profile, r: Radio) {
    match r.state
    case Unknown => true
    case Faulted => true
    case Standby => r.core.mode == MODE_STANDBY
    case Receiving(f) => IsReceiveWord(p, r.core.mode) && Loaded(r.core, f) && Entered(r)
    case PreparedTransmit(f) => !IsTransmitWord(r.core.mode) && Loaded(r.core, f)
    case Transmitting(f, _) => IsTransmitWord(r.core.mode) && Loaded(r.core, f) && Entered(r)
  }

  // ---------------------------------------------------------------- Operations

  datatype TxRequest = TxRequest(transmit: Frequency, bandwidth: Bandwidth, rest: nat)

  /** A token of authority: its class, and which complete requests it matches. */
  datatype Authorisation = Authorisation(class_: TxClass, approves: TxRequest -> bool)

  datatype AfOutput = Mute | Demodulated

  datatype Squelch = Squelch(openRssi: bv8, closeRssi: bv8, openNoise: bv8, closeNoise: bv8, openGlitch: bv8,
                             closeGlitch: bv8)

  datatype ReceiveSetup = ReceiveSetup(frequency: Frequency, modulation: Modulation, bandwidth: Bandwidth, tone: Tone,
                                       squelch: Squelch, af: AfOutput)

  datatype Readback = FilterBandwidth | SquelchNoise | SquelchRssi | AudioOutput

  datatype DriverError =
    | Bus
    | InvalidState(state: DriverState)
    | NotTenHertzAligned
    | AuthorisationRequestMismatch

  datatype Operation =
    | Recover | Initialise
    | StartReceive(frequency: Frequency) | ConfigureReceive(setup: ReceiveSetup) | Sleep
    | SelectReceivePath(frequency: Frequency) | Probe(frequency: Frequency)
    | StartToneScan | StartFrequencyScan | StopScan
    | Watch
    | DisablePa | StartTransmit(request: TxRequest, token: Authorisation) | StopTransmit
    | PrepareTransmit(request: TxRequest, token: Authorisation)
    | EnableTransmit(request: TxRequest, token: Authorisation)
    | EnablePa(request: TxRequest, token: Authorisation)
    | SetPaBias(request: TxRequest, token: Authorisation, bias: bv8)
    | SetTone(request: TxRequest, token: Authorisation)

  predicate AtRest(s: DriverState) { s.Standby? || s.Receiving? }

  /** The authority an operation is asked under, for those that need one. */
  predicate NeedsAuthority(op: Operation) {
    op.StartTransmit? || op.PrepareTransmit? || op.EnableTransmit? || op.EnablePa?
    || op.SetPaBias? || op.SetTone?
  }

  predicate Authorised(op: Operation)
    requires NeedsAuthority(op)
  {
    op.token.approves(op.request)
  }

  /** The states each operation is allowed from. */
  predicate Allowed(s: DriverState, op: Operation) {
    match op
    case Recover => true
    case Initialise => true
    case DisablePa => true
    case StartReceive(_) => AtRest(s)
    case ConfigureReceive(_) => AtRest(s)
    case Sleep => AtRest(s)
    case SelectReceivePath(_) => AtRest(s)
    case StopScan => AtRest(s)
    case StartTransmit(_, _) => AtRest(s)
    case PrepareTransmit(_, _) => AtRest(s)
    case Probe(_) => s.Receiving?
    case StartToneScan => s.Receiving?
    case StartFrequencyScan => s.Receiving?
    case Watch => s.Receiving?
    case StopTransmit => s.Transmitting?
    case EnableTransmit(request, _) => s == PreparedTransmit(request.transmit)
    case EnablePa(request, token) => s == Transmitting(request.transmit, token.class_)
    case SetPaBias(request, token, _) => s == Transmitting(request.transmit, token.class_)
    case SetTone(request, token) => s == Transmitting(request.transmit, token.class_)
  }

  /** The frequency an operation has to encode before it touches the bus. */
  function Encodes(op: Operation): Option<Frequency> {
    match op
    case StartReceive(f) => Some(f)
    case ConfigureReceive(setup) => Some(setup.frequency)
    case Probe(f) => Some(f)
    case StartTransmit(request, _) => Some(request.transmit)
    case PrepareTransmit(request, _) => Some(request.transmit)
    case _ => None
  }

  /** Why an operation is refused before any bus operation, if it is. */
  function Refusal(s: DriverState, op: Operation): Option<DriverError> {
    if NeedsAuthority(op) && !Authorised(op) then Some(AuthorisationRequestMismatch)
    else if !Allowed(s, op) then Some(InvalidState(s))
    else if Encodes(op).Some? && !Aligned(Encodes(op).value) then Some(NotTenHertzAligned)
    else None
  }

  // ---------------------------------------------------------------- Output words

  const PA_CONTROL_INIT: bv16 := 0x0022

  /** The amplifier's bias with its output enabled and the gain of the frequency's side. */
  function PaControl(bias: bv8, hz: nat): bv16 {
    ((bias as bv16) << 8) | 0x0080 | if hz < FILTER_PATH_BOUNDARY_HZ then 0x0008 else 0x0022
  }

  function LnaBit(f: Frequency): bv16 { if f < FILTER_PATH_BOUNDARY_HZ then GPIO_VHF_LNA else GPIO_UHF_LNA }

  /** The output word with the front end of one frequency's side selected. */
  function WithPath(gpio: bv16, f: Frequency): bv16 { With(Without(gpio, LNA_BITS), LnaBit(f)) }

  /** The output word a full receive setup leaves. */
  function WithReceive(gpio: bv16, f: Frequency): bv16 { With(WithPath(gpio, f), GPIO_RX_ENABLE) }

  /** The output word switches the power amplifier on. */
  predicate PaOn(gpio: bv16) { gpio & GPIO_PA_ENABLE != 0 }

  lemma BareBias(bias: bv8)
    ensures (((bias as bv16) << 8) | 0x0080 | 0x0008) >> 8 == bias as bv16
    ensures (((bias as bv16) << 8) | 0x0080 | 0x0008) & 0x00FF == 0x0088
    ensures (((bias as bv16) << 8) | 0x0080 | 0x0022) >> 8 == bias as bv16
    ensures (((bias as bv16) << 8) | 0x0080 | 0x0022) & 0x00FF == 0x00A2
  {}

  /** The amplifier's word holds the bias above its enable bit and the gain of its side. */
  lemma BiasIsInTheUpperByte(bias: bv8, hz: nat)
    ensures PaControl(bias, hz) >> 8 == bias as bv16
    ensures PaControl(bias, hz) & 0x00FF == if hz < 280_000_000 then 0x0088 else 0x00A2
  {
    BareBias(bias);
  }

  lemma BareOr(g: bv16, bits: bv16, one: bv16)
    ensures (g | bits) & one == (g & one) | (bits & one)
  {}

  lemma BareAndNot(g: bv16, bits: bv16, one: bv16)
    ensures (g & !bits) & one == (g & one) & !(bits & one)
  {}

  lemma BareZero(a: bv16, b: bv16)
    ensures a | b == 0 <==> a == 0 && b == 0
  {}

  lemma BareBit(g: bv16)
    ensures g & 0x0020 == 0 || g & 0x0020 == 0x0020
  {}

  lemma BareCleared()
    ensures (0 as bv16) & !0x0020 == 0 && (0x0020 as bv16) & !0x0020 == 0 && (0x0020 as bv16) & !0 == 0x0020
    ensures (0 as bv16) & !0 == 0
  {}

  lemma EnableOfWords(g: bv16, bits: bv16)
    ensures PaOn(With(g, bits)) <==> PaOn(g) || PaOn(bits)
    ensures PaOn(Without(g, bits)) <==> PaOn(g) && !PaOn(bits)
  {
    BareOr(g, bits, GPIO_PA_ENABLE);
    BareAndNot(g, bits, GPIO_PA_ENABLE);
    BareZero(g & GPIO_PA_ENABLE, bits & GPIO_PA_ENABLE);
    BareBit(g);
    BareBit(bits);
    BareCleared();
  }

  lemma OtherBits()
    ensures !PaOn(GPIO_OUT_DEFAULT) && !PaOn(GPIO_RX_ENABLE) && !PaOn(LNA_BITS) && PaOn(GPIO_PA_ENABLE)
    ensures forall f: Frequency :: !PaOn(LnaBit(f))
  {}

  /** Nothing the receiver does to the output word touches the amplifier's bit. */
  lemma ReceiverKeepsEnable(g: bv16, f: Frequency)
    ensures PaOn(WithPath(g, f)) == PaOn(g) && PaOn(WithReceive(g, f)) == PaOn(g)
    ensures PaOn(Without(g, LNA_BITS)) == PaOn(g) && PaOn(Without(g, GPIO_RX_ENABLE)) == PaOn(g)
  {
    OtherBits();
    EnableOfWords(g, LNA_BITS);
    EnableOfWords(Without(g, LNA_BITS), LnaBit(f));
    EnableOfWords(WithPath(g, f), GPIO_RX_ENABLE);
    EnableOfWords(g, GPIO_RX_ENABLE);
    hide PaOn, With, Without, LnaBit;
  }

  /** The bit is set whatever else is set with it, and cleared whatever else is cleared. */
  lemma EnableSwitches(g: bv16, led: bv16)
    ensures PaOn(With(g, With(GPIO_PA_ENABLE, led))) && !PaOn(Without(g, With(GPIO_PA_ENABLE, led)))
  {
    OtherBits();
    EnableOfWords(GPIO_PA_ENABLE, led);
    EnableOfWords(g, With(GPIO_PA_ENABLE, led));
    hide PaOn, With, Without;
  }

  predicate Crosses(f: Frequency, g: Frequency) { (f < FILTER_PATH_BOUNDARY_HZ) != (g < FILTER_PATH_BOUNDARY_HZ) }

  /** The copy is the register, and exactly the amplifier of the frequency's side is on. */
  predicate FrontEnd(r: Radio, f: Frequency) {
    r.gpioOut == r.core.gpio && r.gpioOut & LNA_BITS == LnaBit(f)
  }

  // ---------------------------------------------------------------- What success leaves

  function WithGpio(r: Radio, gpio: bv16): Radio { r.(gpioOut := gpio, core := r.core.(gpio := gpio)) }

  function WithFrequency(r: Radio, f: Frequency): Radio {
    r.(core := r.core.(low := WordsOf(f).low, high := WordsOf(f).high))
  }

  function InMode(r: Radio, mode: bv16, state: DriverState): Radio { r.(state := state, core := r.core.(mode := mode)) }

  /** The blocks a mode turns on start with the frequency loaded before it. */
  function Started(r: Radio, mode: bv16, state: DriverState): Radio {
    InMode(r, mode, state).(log := WithStart(r.log, Start(mode, Words(r.core.low, r.core.high))))
  }

  /** What an operation that is not refused leaves when no bus operation fails; an
      initialisation resets registers the states do not mention as well. */
  function Success(p: Profile, r: Radio, op: Operation): Radio
    requires Refusal(r.state, op).None?
  {
    match op
    case Recover => InMode(r, MODE_STANDBY, Standby)
    case Initialise => r
    case StartReceive(f) => Started(WithFrequency(r, f), MODE_RECEIVE, Receiving(f))
    case ConfigureReceive(setup) =>
      var f := setup.frequency;
      WithGpio(Started(WithFrequency(r, f), p.receiveMode, Receiving(f)), WithReceive(r.gpioOut, f))
    case Sleep => InMode(r, MODE_STANDBY, Standby)
    case SelectReceivePath(f) => WithGpio(r, WithPath(r.gpioOut, f))
    case Probe(f) =>
      var crossed := if Crosses(r.state.frequency, f) then WithGpio(r, WithPath(r.gpioOut, f)) else r;
      Started(WithFrequency(crossed, f), Without(p.receiveMode, MODE_AF_DAC), Receiving(f))
    case StartToneScan => Started(r, p.receiveMode, r.state)
    case StartFrequencyScan => WithGpio(r, Without(r.gpioOut, LNA_BITS))
    case StopScan => InMode(r, MODE_STANDBY, Standby)
    case Watch => r
    case DisablePa =>
      WithGpio(r.(core := r.core.(pa := PaControl(0, 0))), Without(r.gpioOut, With(GPIO_PA_ENABLE, p.gpioRedLed)))
    case StartTransmit(request, token) =>
      Started(WithFrequency(r, request.transmit), MODE_TRANSMIT, Transmitting(request.transmit, token.class_))
    case StopTransmit => InMode(r, MODE_STANDBY, Standby)
    case PrepareTransmit(request, _) =>
      WithFrequency(WithGpio(r, Without(r.gpioOut, GPIO_RX_ENABLE)), request.transmit)
        .(state := PreparedTransmit(request.transmit))
    case EnableTransmit(request, token) =>
      var cleared := if p.txClearsBiasFirst then r.(core := r.core.(pa := 0)) else r;
      Started(cleared, MODE_TRANSMIT_K5, Transmitting(request.transmit, token.class_))
    case EnablePa(request, _) =>
      WithGpio(r, With(WithPath(r.gpioOut, request.transmit), With(GPIO_PA_ENABLE, p.gpioRedLed)))
    case SetPaBias(request, _, bias) =>
      var word := PaControl(bias, request.transmit);
      r.(core := r.core.(pa := word), log := WithBias(r.log, word))
    case SetTone(_, _) => r
  }

  /** The state initialisation leaves: the frequency registers are whatever a reset makes them. */
  predicate Initialised(before: Radio, after: Radio) {
    && after.state == Standby && after.log == before.log && after.core.pa == PA_CONTROL_INIT
    && after.gpioOut == after.core.gpio == GPIO_OUT_DEFAULT && after.core.mode == MODE_STANDBY
  }

  predicate Succeeded(p: Profile, before: Radio, op: Operation, after: Radio)
    requires Refusal(before.state, op).None?
  {
    if op.Initialise? then Initialised(before, after) else after == Success(p, before, op)
  }

  /** What a call that fails may do to the amplifier's bit in the driver's copy of the output
      word: only those that switch it may have done so by then. */
  predicate EnableKept(before: Radio, op: Operation, after: Radio) {
    match op
    case EnablePa(_, _) => PaOn(before.gpioOut) ==> PaOn(after.gpioOut)
    case DisablePa => PaOn(after.gpioOut) ==> PaOn(before.gpioOut)
    case Initialise => PaOn(after.gpioOut) ==> PaOn(before.gpioOut)
    case _ => PaOn(after.gpioOut) == PaOn(before.gpioOut)
  }

  /** One bus failure leaves the chip in any condition and the driver faulted; the mode may or
      may not have been started by then, and the amplifier's bit switched. */
  predicate Failed(p: Profile, before: Radio, op: Operation, after: Radio)
    requires Refusal(before.state, op).None?
  {
    && after.state == Faulted
    && (after.log == Counted(before.log, false)
        || (!op.Initialise? && after.log == Counted(Success(p, before, op).log, false)))
    && EnableKept(before, op, after)
  }

  /** Everything an operation may do. */
  predicate Outcome(p: Profile, before: Radio, op: Operation, after: Radio, error: Option<DriverError>) {
    match Refusal(before.state, op)
    case Some(e) => error == Some(e) && after == before
    case None =>
      match error
      case None => Succeeded(p, before, op, after)
      case Some(e) => e == Bus && Failed(p, before, op, after)
  }

  // ---------------------------------------------------------------- What is allowed

  /** The operations that touch an amplifier or a tone of a transmission. */
  predicate OfTransmission(op: Operation) { op.EnablePa? || op.SetPaBias? || op.SetTone? }

  predicate Anytime(op: Operation) { op.Recover? || op.Initialise? || op.DisablePa? }

  /** State by state, the operations it allows: at rest all but those of a transmission under way
      or prepared, and in standby none that has to be receiving; prepared, entering the transmission
      prepared; transmitting, ending it and serving its own request under its own authority; and
      otherwise only recovery, initialisation and switching the amplifier off. */
  lemma StatesAllowExactly(s: DriverState, op: Operation)
    ensures Anytime(op) ==> Allowed(s, op)
    ensures !Anytime(op) ==>
              (Allowed(s, op) <==>
                 match s
                 case Standby =>
                   !OfTransmission(op) && !op.StopTransmit? && !op.EnableTransmit?
                   && !op.Probe? && !op.StartToneScan? && !op.StartFrequencyScan? && !op.Watch?
                 case Receiving(_) => !OfTransmission(op) && !op.StopTransmit? && !op.EnableTransmit?
                 case PreparedTransmit(f) => op.EnableTransmit? && op.request.transmit == f
                 case Transmitting(f, class_) =>
                   || op.StopTransmit?
                   || (OfTransmission(op) && op.request.transmit == f && op.token.class_ == class_)
                 case Unknown => false
                 case Faulted => false)
  {}

  /** A refusal is for want of authority, or else for the state, or else for a frequency off the
      chip's grid, and nothing has then been touched. */
  lemma RefusedExactlyWhen(p: Profile, before: Radio, op: Operation, after: Radio, error: Option<DriverError>)
    requires Outcome(p, before, op, after, error)
    ensures var unauthorised := (op.StartTransmit? || op.PrepareTransmit? || op.EnableTransmit? || OfTransmission(op))
                                && !op.token.approves(op.request);
            var f := if op.StartReceive? || op.Probe? then op.frequency
                     else if op.ConfigureReceive? then op.setup.frequency
                     else if op.StartTransmit? || op.PrepareTransmit? then op.request.transmit else 10;
            && (error == Some(AuthorisationRequestMismatch) <==> unauthorised)
            && (error == Some(InvalidState(before.state)) <==> !unauthorised && !Allowed(before.state, op))
            && (error == Some(NotTenHertzAligned) <==> !unauthorised && Allowed(before.state, op) && f % 10 != 0)
            && (error.Some? && error != Some(Bus) ==> after == before)
  {
    hide Succeeded, Failed, Allowed;
  }

  // ---------------------------------------------------------------- Blame

  lemma SuccessCountsNothing(p: Profile, before: Radio, op: Operation)
    requires Refusal(before.state, op).None?
    ensures Success(p, before, op).log.failures == before.log.failures
  {
    hide With, Without, WordsOf, WithPath, WithReceive, PaControl, IsUnbiased, Crosses, Refusal;
  }

  /** A call fails by the bus if and only if a transfer of its own failed, and then it made no
      more of them. */
  lemma BusErrorExactlyWhen(p: Profile, before: Radio, op: Operation, after: Radio, error: Option<DriverError>)
    requires Outcome(p, before, op, after, error)
    ensures after.log.failures == before.log.failures + if error == Some(Bus) then 1 else 0
    ensures error.Some? && error != Some(Bus) <==> Refusal(before.state, op).Some?
  {
    hide Success, EnableKept, Refusal;
    if Refusal(before.state, op).None? { SuccessCountsNothing(p, before, op); } else { RefusalIsOwn(before.state, op); }
  }

  lemma RefusalIsOwn(s: DriverState, op: Operation)
    ensures Refusal(s, op) != Some(Bus)
  {}

  // ---------------------------------------------------------------- The driver tells the truth

  /** No mode word passes for another. */
  lemma ModesAreApart(p: Profile)
    requires WellFormed(p)
    ensures forall word :: IsReceiveWord(p, word) ==> !IsTransmitWord(word)
    ensures IsReceiveWord(p, MODE_RECEIVE) && IsReceiveWord(p, p.receiveMode)
            && IsReceiveWord(p, Without(p.receiveMode, MODE_AF_DAC))
    ensures IsTransmitWord(MODE_TRANSMIT) && IsTransmitWord(MODE_TRANSMIT_K5) && !IsTransmitWord(MODE_STANDBY)
    ensures !IsReceiveWord(p, MODE_STANDBY)
  {
    hide PlainTable;
  }

  /** A start leaves the mode it wrote entered with the frequency loaded. */
  lemma StartedIsEntered(r: Radio, mode: bv16, state: DriverState)
    ensures Entered(Started(r, mode, state))
    ensures Started(r, mode, state).log.starts == r.log.starts + [Start(mode, Words(r.core.low, r.core.high))]
  {}

  /** The radio is receiving, truthfully, and started doing so once. */
  predicate ReceivesAfter(p: Profile, before: Radio, after: Radio) {
    && Truthful(p, after) && after.state.Receiving? && IsReceiveWord(p, after.core.mode)
    && after.log.starts == before.log.starts + [Start(after.core.mode, WordsOf(after.state.frequency))]
  }

  /** Starting a receive word with a frequency loaded is receiving there, whatever the output
      word is then set to. */
  lemma ReceivingIsTruthful(p: Profile, loaded: Radio, mode: bv16, f: Frequency, gpio: bv16)
    requires IsReceiveWord(p, mode) && Loaded(loaded.core, f)
    ensures ReceivesAfter(p, loaded, Started(loaded, mode, Receiving(f)))
    ensures ReceivesAfter(p, loaded, WithGpio(Started(loaded, mode, Receiving(f)), gpio))
  {
    hide WordsOf, IsReceiveWord;
    StartedIsEntered(loaded, mode, Receiving(f));
  }

  /** Only the starts before count. */
  lemma SameStarts(p: Profile, a: Radio, b: Radio, after: Radio)
    requires a.log.starts == b.log.starts && ReceivesAfter(p, a, after)
    ensures ReceivesAfter(p, b, after)
  {
    hide Truthful, IsReceiveWord;
  }

  lemma ProbedIsTruthful(p: Profile, before: Radio, f: Frequency)
    requires WellFormed(p) && before.state.Receiving? && Aligned(f)
    ensures ReceivesAfter(p, before, Success(p, before, Probe(f)))
  {}

  lemma ConfiguredIsTruthful(p: Profile, before: Radio, setup: ReceiveSetup)
    requires WellFormed(p) && AtRest(before.state) && Aligned(setup.frequency)
    ensures ReceivesAfter(p, before, Success(p, before, ConfigureReceive(setup)))
  {}

  lemma TunedIsTruthful(p: Profile, before: Radio, op: Operation)
    requires WellFormed(p) && Truthful(p, before) && Refusal(before.state, op).None?
    requires op.StartReceive? || op.ConfigureReceive? || op.Probe? || op.StartToneScan?
    ensures ReceivesAfter(p, before, Success(p, before, op))
  {
    ModesAreApart(p);
    hide With, Without, WellFormed, WordsOf, WithPath, WithReceive, Crosses, IsReceiveWord, Started, Truthful,
         ReceivesAfter;
    match op
    case StartReceive(f) =>
      ReceivingIsTruthful(p, WithFrequency(before, f), MODE_RECEIVE, f, 0);
      SameStarts(p, WithFrequency(before, f), before, Success(p, before, op));
    case ConfigureReceive(setup) => ConfiguredIsTruthful(p, before, setup);
    case Probe(f) => ProbedIsTruthful(p, before, f);
    case StartToneScan =>
      StillLoaded(p, before, before.state.frequency);
      ReceivingIsTruthful(p, before, p.receiveMode, before.state.frequency, 0);
  }

  lemma StillLoaded(p: Profile, r: Radio, f: Frequency)
    requires Truthful(p, r) && r.state == Receiving(f)
    ensures Loaded(r.core, f)
  {}

  lemma StartedMode(r: Radio, mode: bv16, state: DriverState)
    ensures Started(r, mode, state).core.mode == mode && Started(r, mode, state).state == state
  {}

  lemma PreparedIsTruthful(p: Profile, before: Radio, op: Operation)
    requires WellFormed(p) && Truthful(p, before) && op.PrepareTransmit? && Refusal(before.state, op).None?
    ensures Truthful(p, Success(p, before, op)) && Success(p, before, op).log.starts == before.log.starts
  {
    ModesAreApart(p);
    hide With, Without, WellFormed, WordsOf, WithPath, IsReceiveWord, IsTransmitWord, Authorised;
  }

  /** The frequency loaded as a transmit word is written is the request's own. */
  lemma KeyedIsTruthful(p: Profile, before: Radio, op: Operation)
    requires WellFormed(p) && Truthful(p, before) && Refusal(before.state, op).None?
    requires op.StartTransmit? || op.EnableTransmit?
    ensures var after := Success(p, before, op);
            Truthful(p, after) && Authorised(op) && IsTransmitWord(after.core.mode)
            && after.log.starts == before.log.starts + [Start(after.core.mode, WordsOf(op.request.transmit))]
  {
    ModesAreApart(p);
    hide With, Without, WellFormed, WordsOf, IsReceiveWord, IsTransmitWord, Authorised, Started, Truthful, WithPath,
         WithReceive, WithBias, PaControl, Crosses;
    var f := op.request.transmit;
    if op.EnableTransmit? { StillPrepared(p, before, f); }
    var loaded := if op.StartTransmit? then WithFrequency(before, f)
                  else if p.txClearsBiasFirst then before.(core := before.core.(pa := 0)) else before;
    var mode := if op.StartTransmit? then MODE_TRANSMIT else MODE_TRANSMIT_K5;
    TransmittingIsTruthful(p, loaded, mode, f, op.token.class_);
    StartedMode(loaded, mode, Transmitting(f, op.token.class_));
  }

  lemma StillPrepared(p: Profile, r: Radio, f: Frequency)
    requires Truthful(p, r) && r.state == PreparedTransmit(f)
    ensures Loaded(r.core, f)
  {}

  lemma TransmittingIsTruthful(p: Profile, loaded: Radio, mode: bv16, f: Frequency, class_: TxClass)
    requires IsTransmitWord(mode) && Loaded(loaded.core, f)
    ensures var r := Started(loaded, mode, Transmitting(f, class_));
            Truthful(p, r) && r.log.starts == loaded.log.starts + [Start(mode, WordsOf(f))]
  {
    hide WordsOf, IsTransmitWord;
    StartedIsEntered(loaded, mode, Transmitting(f, class_));
  }

  /** Calls that end in standby. */
  predicate Rests(op: Operation) { op.Recover? || op.Sleep? || op.StopScan? || op.StopTransmit? }

  lemma RestingIsTruthful(p: Profile, before: Radio, op: Operation)
    requires Rests(op) && Refusal(before.state, op).None?
    ensures Truthful(p, Success(p, before, op))
    ensures Success(p, before, op).log.starts == before.log.starts
  {
    hide With, Without, WordsOf, WithPath, WithReceive, PaControl, IsReceiveWord, IsTransmitWord, Authorised, Started,
         Crosses, WithBias;
  }

  /** Calls that leave the state, the mode, the frequency and the starts as they were. */
  lemma OthersKeepMode(p: Profile, before: Radio, op: Operation)
    requires Refusal(before.state, op).None? && !op.Initialise? && !Rests(op)
    requires !op.StartReceive? && !op.ConfigureReceive? && !op.Probe? && !op.StartToneScan?
    requires !op.StartTransmit? && !op.PrepareTransmit? && !op.EnableTransmit?
    ensures var after := Success(p, before, op);
            && after.state == before.state && after.core.mode == before.core.mode
            && after.core.low == before.core.low && after.core.high == before.core.high
            && after.log.starts == before.log.starts
  {
    hide With, Without, WordsOf, WithPath, WithReceive, PaControl, Authorised, Started, Crosses, Refusal, IsUnbiased;
  }

  lemma SettledIsTruthful(p: Profile, before: Radio, op: Operation)
    requires Truthful(p, before) && Refusal(before.state, op).None? && !op.Initialise?
    requires !op.StartReceive? && !op.ConfigureReceive? && !op.Probe? && !op.StartToneScan?
    requires !op.StartTransmit? && !op.PrepareTransmit? && !op.EnableTransmit?
    ensures Truthful(p, Success(p, before, op))
    ensures Success(p, before, op).log.starts == before.log.starts
  {
    hide Success, WordsOf, IsReceiveWord, IsTransmitWord, Refusal;
    if Rests(op) { RestingIsTruthful(p, before, op); } else { OthersKeepMode(p, before, op); }
  }

  /** What an operation may start: receiving, or an authorised request's transmission. */
  predicate MayStart(p: Profile, op: Operation, start: Start) {
    IsReceiveWord(p, start.mode)
    || (NeedsAuthority(op) && Authorised(op) && IsTransmitWord(start.mode)
        && start.words == WordsOf(op.request.transmit))
  }

  lemma SuccessIsTruthful(p: Profile, before: Radio, op: Operation)
    requires WellFormed(p) && Truthful(p, before) && Refusal(before.state, op).None? && !op.Initialise?
    ensures Truthful(p, Success(p, before, op))
    ensures var starts := Success(p, before, op).log.starts;
            || starts == before.log.starts
            || exists start :: MayStart(p, op, start) && starts == before.log.starts + [start]
  {
    if op.StartReceive? || op.ConfigureReceive? || op.Probe? || op.StartToneScan? {
      TunedIsTruthful(p, before, op);
      var after := Success(p, before, op);
      assert MayStart(p, op, Start(after.core.mode, WordsOf(after.state.frequency)));
    } else if op.PrepareTransmit? {
      PreparedIsTruthful(p, before, op);
    } else if op.StartTransmit? || op.EnableTransmit? {
      KeyedIsTruthful(p, before, op);
      assert MayStart(p, op, Start(Success(p, before, op).core.mode, WordsOf(op.request.transmit)));
    } else {
      SettledIsTruthful(p, before, op);
    }
    hide WellFormed, Truthful, Refusal, Authorised, Success, MayStart;
  }

  /** Whatever the bus does, the state reported afterwards is true of the chip. */
  lemma OutcomeIsTruthful(p: Profile, before: Radio, op: Operation, after: Radio, error: Option<DriverError>)
    requires WellFormed(p) && Truthful(p, before) && Outcome(p, before, op, after, error)
    ensures Truthful(p, after)
  {
    if Refusal(before.state, op).None? && !op.Initialise? { SuccessIsTruthful(p, before, op); }
    hide WellFormed, Refusal, Success, IsReceiveWord, IsTransmitWord;
  }

  /** A failed bus operation latches the fault; only recovering or initialising leaves it, and
      nothing else but switching the amplifier off reaches the bus meanwhile. */
  lemma FaultLatches(p: Profile, before: Radio, op: Operation, after: Radio, error: Option<DriverError>)
    requires Outcome(p, before, op, after, error)
    ensures error == Some(Bus) ==> after.state == Faulted
    ensures before.state == Faulted && after.state != Faulted ==> (op.Recover? || op.Initialise?) && error.None?
    ensures before.state == Faulted && !op.Recover? && !op.Initialise? && !op.DisablePa? ==>
              error.Some? && error != Some(Bus) && after == before
  {
    hide With, Without, WordsOf, WithPath, WithReceive;
  }

  /** Every mode but standby is started either to receive, or to transmit in an operation whose
      complete request its authority matches, with exactly that request's frequency loaded. */
  lemma StartsNeedAuthority(p: Profile, before: Radio, op: Operation, after: Radio, error: Option<DriverError>)
    requires WellFormed(p) && Truthful(p, before) && Outcome(p, before, op, after, error)
    ensures after.log.starts == before.log.starts
            || exists start :: MayStart(p, op, start) && after.log.starts == before.log.starts + [start]
  {
    if Refusal(before.state, op).None? && !op.Initialise? { SuccessIsTruthful(p, before, op); }
    hide WellFormed, Refusal, Success, Truthful, MayStart;
  }

  lemma OthersKeepBias(p: Profile, before: Radio, op: Operation)
    requires Refusal(before.state, op).None? && !op.SetPaBias?
    ensures Success(p, before, op).log.biases == before.log.biases
    ensures !op.DisablePa? && !op.EnableTransmit? ==> Success(p, before, op).core.pa == before.core.pa
  {
    hide With, Without, WordsOf, WithPath, WithReceive, Crosses, Refusal;
  }

  /** A bias operation of an authorised request, with that request transmitting. */
  predicate MayBias(before: Radio, op: Operation, word: bv16) {
    && op.SetPaBias? && Authorised(op) && before.state == Transmitting(op.request.transmit, op.token.class_)
    && word == PaControl(op.bias, op.request.transmit)
  }

  /** Whether or not the bus fails, a bias is written only while an authorised request is
      transmitting; when nothing fails, no other call leaves one it did not find. */
  lemma BiasNeedsAuthority(p: Profile, before: Radio, op: Operation, after: Radio, error: Option<DriverError>)
    requires Outcome(p, before, op, after, error)
    ensures after.log.biases == before.log.biases
            || exists word :: MayBias(before, op, word) && after.log.biases == before.log.biases + [word]
    ensures error.None? ==>
              || after.core.pa == before.core.pa
              || after.core.pa == 0 || after.core.pa == PA_CONTROL_INIT || after.core.pa == PaControl(0, 0)
              || MayBias(before, op, after.core.pa)
  {
    hide With, Without, WordsOf, PaControl, Encodes, Authorised, WithPath, WithReceive, Crosses, IsUnbiased;
    if Refusal(before.state, op).None? {
      if !op.SetPaBias? {
        OthersKeepBias(p, before, op);
      } else {
        assert MayBias(before, op, PaControl(op.bias, op.request.transmit));
      }
    }
  }

  datatype Event = Event(op: Operation, after: Radio, error: Option<DriverError>)

  predicate IsRun(p: Profile, start: Radio, events: seq<Event>)
    decreases |events|
  {
    events == []
    || (Outcome(p, start, events[0].op, events[0].after, events[0].error) && IsRun(p, events[0].after, events[1..]))
  }

  function Last(start: Radio, events: seq<Event>): Radio {
    if events == [] then start else events[|events| - 1].after
  }

  /** Some operation of the run may have made this start. */
  ghost predicate Licensed(p: Profile, events: seq<Event>, start: Start) {
    exists i :: 0 <= i < |events| && MayStart(p, events[i].op, start)
  }

  /** Over every run, under any bus failures: the state last reported is true, and every mode
      started since the beginning was a receiving one or an authorised request's. */
  lemma {:induction false} RunIsTruthful(p: Profile, start: Radio, events: seq<Event>)
    requires WellFormed(p) && Truthful(p, start) && IsRun(p, start, events)
    ensures Truthful(p, Last(start, events))
    ensures start.log.starts <= Last(start, events).log.starts
    ensures forall k :: |start.log.starts| <= k < |Last(start, events).log.starts| ==>
              Licensed(p, events, Last(start, events).log.starts[k])
    decreases |events|
  {
    if events != [] {
      hide WellFormed, Truthful, Outcome, MayStart, Licensed;
      var e, rest := events[0], events[1..];
      OutcomeIsTruthful(p, start, e.op, e.after, e.error);
      StartsNeedAuthority(p, start, e.op, e.after, e.error);
      RunIsTruthful(p, e.after, rest);
      var end := Last(e.after, rest);
      assert end == Last(start, events);
      forall k | |start.log.starts| <= k < |end.log.starts| ensures Licensed(p, events, end.log.starts[k]) {
        if k < |e.after.log.starts| {
          assert end.log.starts[k] == e.after.log.starts[k];
          FirstLicenses(p, events, end.log.starts[k]);
        } else {
          LaterLicenses(p, events, end.log.starts[k]);
        }
      }
    }
  }

  lemma FirstLicenses(p: Profile, events: seq<Event>, start: Start)
    requires events != [] && MayStart(p, events[0].op, start)
    ensures Licensed(p, events, start)
  {
    hide MayStart;
  }

  lemma LaterLicenses(p: Profile, events: seq<Event>, start: Start)
    requires events != [] && Licensed(p, events[1..], start)
    ensures Licensed(p, events, start)
  {}

  /** The radio before each operation of a run. */
  function Before(start: Radio, events: seq<Event>, i: nat): Radio
    requires i < |events|
  {
    if i == 0 then start else events[i - 1].after
  }

  /** Some operation of the run may have written this bias. */
  ghost predicate BiasLicensed(start: Radio, events: seq<Event>, word: bv16) {
    exists i :: 0 <= i < |events| && MayBias(Before(start, events, i), events[i].op, word)
  }

  /** Over every run, under any bus failures, every bias written since the beginning was an
      authorised request's, written while it was transmitting. */
  lemma {:induction false} RunBiasesAreLicensed(p: Profile, start: Radio, events: seq<Event>)
    requires IsRun(p, start, events)
    ensures start.log.biases <= Last(start, events).log.biases
    ensures forall k :: |start.log.biases| <= k < |Last(start, events).log.biases| ==>
              BiasLicensed(start, events, Last(start, events).log.biases[k])
    decreases |events|
  {
    if events != [] {
      hide Outcome, MayBias, BiasLicensed;
      var e, rest := events[0], events[1..];
      BiasNeedsAuthority(p, start, e.op, e.after, e.error);
      RunBiasesAreLicensed(p, e.after, rest);
      var end := Last(e.after, rest);
      assert end == Last(start, events);
      forall k | |start.log.biases| <= k < |end.log.biases| ensures BiasLicensed(start, events, end.log.biases[k]) {
        if k < |e.after.log.biases| {
          assert end.log.biases[k] == e.after.log.biases[k];
          FirstBiases(start, events, end.log.biases[k]);
        } else {
          LaterBiases(start, events, end.log.biases[k]);
        }
      }
    }
  }

  lemma FirstBiases(start: Radio, events: seq<Event>, word: bv16)
    requires events != [] && MayBias(start, events[0].op, word)
    ensures BiasLicensed(start, events, word)
  {
    hide MayBias;
    assert Before(start, events, 0) == start;
  }

  lemma LaterBiases(start: Radio, events: seq<Event>, word: bv16)
    requires events != [] && BiasLicensed(events[0].after, events[1..], word)
    ensures BiasLicensed(start, events, word)
  {
    hide MayBias;
    var after, rest := events[0].after, events[1..];
    var i :| 0 <= i < |rest| && MayBias(Before(after, rest, i), rest[i].op, word);
    assert Before(start, events, i + 1) == Before(after, rest, i) && events[i + 1] == rest[i];
  }

  /** Over every run the calls that failed by the bus are as many as the transfers that failed:
      on a bus that fails none, only refusals fail. */
  lemma {:induction false} RunBlamesTheBus(p: Profile, start: Radio, events: seq<Event>)
    requires IsRun(p, start, events)
    ensures Last(start, events).log.failures == start.log.failures + BusErrors(events)
    decreases |events|
  {
    if events != [] {
      hide Outcome;
      var e, rest := events[0], events[1..];
      BusErrorExactlyWhen(p, start, e.op, e.after, e.error);
      RunBlamesTheBus(p, e.after, rest);
      assert Last(e.after, rest) == Last(start, events);
    }
  }

  function BusErrors(events: seq<Event>): nat
    decreases |events|
  {
    if events == [] then 0 else (if events[0].error == Some(Bus) then 1 else 0) + BusErrors(events[1..])
  }

  // ---------------------------------------------------------------- The frequency registers

  /** The frequency the two registers hold together, in hertz: one unit is 10 Hz. */
  function Hertz(c: Core): nat { 10 * ((c.high as int) * 0x1_0000 + (c.low as int)) }

  lemma BareDoubled(w: bv16)
    requires w & 0x8000 == 0
    ensures (w << 1) as int == 2 * (w as int) && ((w << 1) | 1) as int == 2 * (w as int) + 1
  {}

  lemma BareSmallWord(w: bv16)
    requires w as int < 0x8000
    ensures w & 0x8000 == 0
  {}

  lemma BareWordOf(w: bv16, n: nat)
    requires w as int == n
    ensures n as bv16 == w
  {}

  /** Every number that fits is held by some word. */
  lemma {:induction false} SomeWordHolds(n: nat) returns (w: bv16)
    requires n < 0x1_0000
    ensures w as int == n
    decreases n
  {
    if n == 0 {
      w := 0;
    } else {
      var half := SomeWordHolds(n / 2);
      BareSmallWord(half);
      BareDoubled(half);
      w := if n % 2 == 0 then half << 1 else (half << 1) | 1;
    }
  }

  lemma WordHolds(n: nat)
    requires n < 0x1_0000
    ensures (n as bv16) as int == n
  {
    var w := SomeWordHolds(n);
    BareWordOf(w, n);
  }

  lemma HalvesJoin(units: nat)
    ensures units / 0x1_0000 * 0x1_0000 + units % 0x1_0000 == units
  {}

  /** The words of a frequency on the chip's raster are its number of 10 Hz units. */
  lemma WordsTellFrequency(f: Frequency)
    ensures Aligned(f) ==> 10 * ((WordsOf(f).high as int) * 0x1_0000 + (WordsOf(f).low as int)) == f
  {
    var units := f / 10;
    WordHolds(units % 0x1_0000);
    WordHolds(units / 0x1_0000);
    HalvesJoin(units);
  }

  lemma LoadedIsHertz(c: Core, f: Frequency)
    requires Loaded(c, f)
    ensures Hertz(c) == f
  {
    WordsTellFrequency(f);
    hide WordsOf;
  }

  /** A driver that says it is at a frequency is at the frequency the registers hold. */
  lemma StateTellsHertz(p: Profile, r: Radio)
    requires Truthful(p, r)
    ensures r.state.Receiving? || r.state.PreparedTransmit? || r.state.Transmitting? ==>
              r.state.frequency == Hertz(r.core)
  {
    hide IsReceiveWord, IsTransmitWord, Loaded, Entered, Hertz;
    match r.state
    case Receiving(f) => LoadedIsHertz(r.core, f);
    case PreparedTransmit(f) => LoadedIsHertz(r.core, f);
    case Transmitting(f, _) => LoadedIsHertz(r.core, f);
    case _ =>
  }

  /** Over every run, under any bus failures, the frequency last reported is the one held in the
      registers. */
  lemma RunTellsHertz(p: Profile, start: Radio, events: seq<Event>)
    requires WellFormed(p) && Truthful(p, start) && IsRun(p, start, events)
    ensures var end := Last(start, events);
            end.state.Receiving? || end.state.PreparedTransmit? || end.state.Transmitting? ==>
              end.state.frequency == Hertz(end.core)
  {
    hide WellFormed, Truthful, IsRun, Last, Hertz;
    RunIsTruthful(p, start, events);
    StateTellsHertz(p, Last(start, events));
  }

  // ---------------------------------------------------------------- The amplifier's switch

  /** What a call that passes makes of the bit. */
  lemma EnableAfter(p: Profile, before: Radio, op: Operation, after: Radio)
    requires Outcome(p, before, op, after, None)
    ensures PaOn(after.gpioOut) <==> op.EnablePa? || (PaOn(before.gpioOut) && !op.DisablePa? && !op.Initialise?)
    ensures before.gpioOut == before.core.gpio ==> after.gpioOut == after.core.gpio
  {
    hide PaOn, With, Without, WordsOf, WithPath, WithReceive, PaControl, IsUnbiased, Crosses, Authorised, Encodes,
         AtRest;
    OtherBits();
    if op.EnablePa? {
      EnableSwitches(WithPath(before.gpioOut, op.request.transmit), p.gpioRedLed);
    } else if op.DisablePa? {
      EnableSwitches(before.gpioOut, p.gpioRedLed);
    } else if !op.Initialise? {
      OthersKeepEnable(p, before, op);
    }
  }

  lemma OthersKeepEnable(p: Profile, before: Radio, op: Operation)
    requires Refusal(before.state, op).None? && !op.EnablePa? && !op.DisablePa? && !op.Initialise?
    ensures var after := Success(p, before, op);
            && PaOn(after.gpioOut) == PaOn(before.gpioOut)
            && (before.gpioOut == before.core.gpio ==> after.gpioOut == after.core.gpio)
  {
    hide PaOn, With, Without, WordsOf, WithPath, WithReceive, PaControl, IsUnbiased, Crosses, Refusal;
    var f := if op.ConfigureReceive? then op.setup.frequency
             else if op.SelectReceivePath? || op.Probe? then op.frequency else 1;
    ReceiverKeepsEnable(before.gpioOut, f);
  }

  predicate SwitchesOn(e: Event) { e.op.EnablePa? && e.error.None? }

  predicate SwitchesOff(e: Event) { (e.op.DisablePa? || e.op.Initialise?) && e.error.None? }

  predicate NeverOff(events: seq<Event>, from: nat) {
    forall j :: from <= j < |events| ==> !SwitchesOff(events[j])
  }

  /** The amplifier was switched on and not off since. */
  ghost predicate LeftOn(events: seq<Event>) {
    exists i :: 0 <= i < |events| && SwitchesOn(events[i]) && NeverOff(events, i + 1)
  }

  lemma LeftOnStep(events: seq<Event>)
    requires events != []
    ensures LeftOn(events) <==> LeftOn(events[1..]) || (SwitchesOn(events[0]) && NeverOff(events[1..], 0))
    ensures NeverOff(events, 0) <==> !SwitchesOff(events[0]) && NeverOff(events[1..], 0)
  {
    hide SwitchesOn, SwitchesOff;
    var rest := events[1..];
    if LeftOn(rest) {
      var i :| 0 <= i < |rest| && SwitchesOn(rest[i]) && NeverOff(rest, i + 1);
      forall j | i + 2 <= j < |events| ensures !SwitchesOff(events[j]) { assert events[j] == rest[j - 1]; }
      assert SwitchesOn(events[i + 1]) && NeverOff(events, i + 2);
    }
    if SwitchesOn(events[0]) && NeverOff(rest, 0) {
      forall j | 1 <= j < |events| ensures !SwitchesOff(events[j]) { assert events[j] == rest[j - 1]; }
      assert SwitchesOn(events[0]) && NeverOff(events, 0 + 1);
    }
    if LeftOn(events) {
      var i :| 0 <= i < |events| && SwitchesOn(events[i]) && NeverOff(events, i + 1);
      forall j | 0 <= j < |rest| && j + 1 > i ensures !SwitchesOff(rest[j]) { assert rest[j] == events[j + 1]; }
      if i > 0 {
        assert rest[i - 1] == events[i];
        assert SwitchesOn(rest[i - 1]) && NeverOff(rest, i - 1 + 1);
      }
    }
    if NeverOff(events, 0) {
      forall j | 0 <= j < |rest| ensures !SwitchesOff(rest[j]) { assert rest[j] == events[j + 1]; }
    }
    if !SwitchesOff(events[0]) && NeverOff(rest, 0) {
      forall j | 0 <= j < |events| ensures !SwitchesOff(events[j]) { if j > 0 { assert events[j] == rest[j - 1]; } }
    }
  }

  predicate NoBusFailure(events: seq<Event>) { forall i :: 0 <= i < |events| ==> events[i].error != Some(Bus) }

  /** Over every run without a bus failure the output word, and its register with it, has the
      amplifier switched on if and only if it was enabled and neither disabled nor reset since,
      or was on at first and never either. */
  lemma {:induction false} PaIsOnExactlyWhen(p: Profile, start: Radio, events: seq<Event>)
    requires IsRun(p, start, events) && NoBusFailure(events)
    ensures var end := Last(start, events);
            && (PaOn(end.gpioOut) <==> LeftOn(events) || (PaOn(start.gpioOut) && NeverOff(events, 0)))
            && (start.gpioOut == start.core.gpio ==> end.gpioOut == end.core.gpio)
    decreases |events|
  {
    if events != [] {
      hide Outcome, PaOn, LeftOn, NeverOff;
      var e, rest := events[0], events[1..];
      forall i | 0 <= i < |rest| ensures rest[i].error != Some(Bus) { assert rest[i] == events[i + 1]; }
      PaIsOnExactlyWhen(p, e.after, rest);
      assert Last(e.after, rest) == Last(start, events);
      assert e.error != Some(Bus);
      LeftOnStep(events);
      if e.error.None? { EnableAfter(p, start, e.op, e.after); } else { RefusedStays(p, start, e); }
    }
  }

  lemma RefusedStays(p: Profile, start: Radio, e: Event)
    requires Outcome(p, start, e.op, e.after, e.error) && e.error.Some? && e.error != Some(Bus)
    ensures e.after == start
  {}

  /** A call that may have switched the amplifier on: an authorised enable with that request
      transmitting, passed or not. */
  predicate MayEnable(before: Radio, op: Operation) {
    op.EnablePa? && Authorised(op) && before.state == Transmitting(op.request.transmit, op.token.class_)
  }

  lemma EnableStep(p: Profile, start: Radio, e: Event)
    requires Outcome(p, start, e.op, e.after, e.error)
    ensures PaOn(e.after.gpioOut) ==> (PaOn(start.gpioOut) && !SwitchesOff(e)) || MayEnable(start, e.op)
  {
    hide PaOn, Authorised, With, Without, WordsOf, WithPath, WithReceive, PaControl, IsUnbiased, Crosses;
    if e.error.None? { EnableAfter(p, start, e.op, e.after); }
  }

  /** Some authorised enable of the run, with no passing disable or reset after it. */
  ghost predicate EnableLicensed(start: Radio, events: seq<Event>) {
    exists i :: 0 <= i < |events| && MayEnable(Before(start, events, i), events[i].op) && NeverOff(events, i + 1)
  }

  /** Over every run, under any bus failures, the driver has the amplifier switched on only if it
      was on at first or an authorised enable of a request that was transmitting put it there, and
      in either case no disable or reset has passed since. */
  lemma {:induction false} EnableNeedsAuthority(p: Profile, start: Radio, events: seq<Event>)
    requires IsRun(p, start, events) && PaOn(Last(start, events).gpioOut)
    ensures EnableLicensed(start, events) || (PaOn(start.gpioOut) && NeverOff(events, 0))
    decreases |events|
  {
    if events != [] {
      hide Outcome, PaOn, MayEnable, SwitchesOff;
      var e, rest := events[0], events[1..];
      assert Last(e.after, rest) == Last(start, events);
      EnableNeedsAuthority(p, e.after, rest);
      EnableStep(p, start, e);
      if EnableLicensed(e.after, rest) {
        var i :| 0 <= i < |rest| && MayEnable(Before(e.after, rest, i), rest[i].op) && NeverOff(rest, i + 1);
        assert Before(start, events, i + 1) == Before(e.after, rest, i) && events[i + 1] == rest[i];
        forall j | i + 2 <= j < |events| ensures !SwitchesOff(events[j]) { assert events[j] == rest[j - 1]; }
        assert MayEnable(Before(start, events, i + 1), events[i + 1].op) && NeverOff(events, i + 1 + 1);
      } else {
        forall j | 1 <= j < |events| ensures !SwitchesOff(events[j]) { assert events[j] == rest[j - 1]; }
        if MayEnable(start, e.op) {
          assert Before(start, events, 0) == start;
          assert MayEnable(Before(start, events, 0), events[0].op) && NeverOff(events, 0 + 1);
        }
      }
    }
  }

  /** Entering transmission leaves the amplifier off if and only if no enable before it was left
      on: after a reset and without a bus failure, that is the exact condition. */
  lemma TransmissionStartsWithPaOffExactlyWhen(p: Profile, start: Radio, events: seq<Event>)
    requires IsRun(p, start, events) && NoBusFailure(events) && events != []
    requires events[|events| - 1].op.EnableTransmit? && events[|events| - 1].error.None?
    requires !PaOn(start.gpioOut) && start.gpioOut == start.core.gpio
    ensures !PaOn(Last(start, events).core.gpio) <==> !LeftOn(events[..|events| - 1])
  {
    hide PaOn, Outcome, IsRun;
    var n := |events| - 1;
    PaIsOnExactlyWhen(p, start, events);
    if LeftOn(events) {
      var i :| 0 <= i < |events| && SwitchesOn(events[i]) && NeverOff(events, i + 1);
      assert i < n && events[..n][i] == events[i] && NeverOff(events[..n], i + 1);
    }
    if LeftOn(events[..n]) {
      var i :| 0 <= i < n && SwitchesOn(events[..n][i]) && NeverOff(events[..n], i + 1);
      forall j | i + 1 <= j < |events| ensures !SwitchesOff(events[j]) {
        if j < n { assert events[j] == events[..n][j]; }
      }
      assert events[i] == events[..n][i] && NeverOff(events, i + 1);
    }
  }

  /** A request sent twice, its amplifier not disabled in between. */
  function SentAgain(p: Profile, start: Radio, request: TxRequest, token: Authorisation): seq<Event> {
    var f := request.transmit;
    var on := WithGpio(start, With(WithPath(start.gpioOut, f), With(GPIO_PA_ENABLE, p.gpioRedLed)));
    var stopped := InMode(on, MODE_STANDBY, Standby);
    var prepared :=
      WithFrequency(WithGpio(stopped, Without(stopped.gpioOut, GPIO_RX_ENABLE)), f).(state := PreparedTransmit(f));
    var cleared := if p.txClearsBiasFirst then prepared.(core := prepared.core.(pa := 0)) else prepared;
    [Event(EnablePa(request, token), on, None), Event(StopTransmit, stopped, None),
     Event(PrepareTransmit(request, token), prepared, None),
     Event(EnableTransmit(request, token), Started(cleared, MODE_TRANSMIT_K5, Transmitting(f, token.class_)), None)]
  }

  lemma EnablePasses(p: Profile, r: Radio, request: TxRequest, token: Authorisation)
    requires token.approves(request) && r.state == Transmitting(request.transmit, token.class_)
    ensures Outcome(p, r, EnablePa(request, token),
                    WithGpio(r, With(WithPath(r.gpioOut, request.transmit), With(GPIO_PA_ENABLE, p.gpioRedLed))), None)
  {
    hide PaOn, With, Without, WithPath, EnableKept;
  }

  lemma StopPasses(p: Profile, r: Radio)
    requires r.state.Transmitting?
    ensures Outcome(p, r, StopTransmit, InMode(r, MODE_STANDBY, Standby), None)
  {
    hide EnableKept;
  }

  lemma PreparePasses(p: Profile, r: Radio, request: TxRequest, token: Authorisation)
    requires token.approves(request) && r.state == Standby && Aligned(request.transmit)
    ensures Outcome(p, r, PrepareTransmit(request, token),
                    WithFrequency(WithGpio(r, Without(r.gpioOut, GPIO_RX_ENABLE)), request.transmit)
                      .(state := PreparedTransmit(request.transmit)), None)
  {
    hide Without, WordsOf, EnableKept;
  }

  lemma KeyPasses(p: Profile, r: Radio, request: TxRequest, token: Authorisation)
    requires token.approves(request) && r.state == PreparedTransmit(request.transmit)
    ensures Outcome(p, r, EnableTransmit(request, token),
                    Started(if p.txClearsBiasFirst then r.(core := r.core.(pa := 0)) else r, MODE_TRANSMIT_K5,
                            Transmitting(request.transmit, token.class_)), None)
  {
    hide EnableKept, Started;
  }

  lemma SentAgainPasses(p: Profile, start: Radio, request: TxRequest, token: Authorisation)
    requires token.approves(request) && Aligned(request.transmit)
    requires start.state == Transmitting(request.transmit, token.class_)
    ensures var e := SentAgain(p, start, request, token);
            && Outcome(p, start, e[0].op, e[0].after, None) && Outcome(p, e[0].after, e[1].op, e[1].after, None)
            && Outcome(p, e[1].after, e[2].op, e[2].after, None) && Outcome(p, e[2].after, e[3].op, e[3].after, None)
            && e[3].after.state == Transmitting(request.transmit, token.class_)
  {
    hide Outcome, With, Without, WordsOf, WithPath, Aligned;
    var e := SentAgain(p, start, request, token);
    EnablePasses(p, start, request, token);
    StopPasses(p, e[0].after);
    PreparePasses(p, e[1].after, request, token);
    KeyPasses(p, e[2].after, request, token);
  }

  lemma FourSteps(p: Profile, start: Radio, e: seq<Event>)
    requires |e| == 4 && forall i :: 0 <= i < 4 ==> e[i].error.None?
    requires Outcome(p, start, e[0].op, e[0].after, None) && Outcome(p, e[0].after, e[1].op, e[1].after, None)
    requires Outcome(p, e[1].after, e[2].op, e[2].after, None) && Outcome(p, e[2].after, e[3].op, e[3].after, None)
    ensures IsRun(p, start, e)
  {
    hide Outcome;
    assert e[1..][1..][1..][1..] == [];
    assert IsRun(p, e[3].after, e[1..][1..][1..][1..]);
    assert IsRun(p, e[2].after, e[1..][1..][1..]);
    assert IsRun(p, e[1].after, e[1..][1..]);
    assert IsRun(p, e[0].after, e[1..]);
  }

  /** It starts transmitting the second time with the amplifier still on. */
  lemma PaStaysOnWhenSentAgain(p: Profile, start: Radio, request: TxRequest, token: Authorisation)
    requires token.approves(request) && Aligned(request.transmit)
    requires start.state == Transmitting(request.transmit, token.class_) && start.gpioOut == start.core.gpio
    ensures var events := SentAgain(p, start, request, token);
            && IsRun(p, start, events) && NoBusFailure(events)
            && Last(start, events).state.Transmitting? && PaOn(Last(start, events).core.gpio)
  {
    var events := SentAgain(p, start, request, token);
    SentAgainPasses(p, start, request, token);
    hide PaOn, With, Without, WordsOf, WithPath, Aligned, Outcome, IsRun, WithGpio, WithFrequency, Started, InMode;
    FourSteps(p, start, events);
    PaIsOnExactlyWhen(p, start, events);
    assert SwitchesOn(events[0]) && NeverOff(events, 0 + 1);
  }

  // ---------------------------------------------------------------- The front end

  lemma BarePathSelects(g: bv16, bit: bv16)
    requires bit == 0x0004 || bit == 0x0008
    ensures ((g & !0x000C) | bit) & 0x000C == bit
    ensures (((g & !0x000C) | bit) | 0x0040) & 0x000C == bit
  {}

  lemma BarePathKeeps(g: bv16, bit: bv16)
    requires bit == 0x0004 || bit == 0x0008
    ensures ((g & !0x000C) | bit) & 0xFFF3 == g & 0xFFF3
  {}

  /** The rest of the word stays as it was. */
  lemma PathKeepsOthers(gpio: bv16, f: Frequency)
    ensures WithPath(gpio, f) & 0xFFF3 == gpio & 0xFFF3
  {
    BarePathKeeps(gpio, LnaBit(f));
  }

  lemma BareEnables(g: bv16)
    ensures (g | 0x0040) & 0x0040 == 0x0040 && (g | 0x0040) & 0xFFBF == g & 0xFFBF
  {}

  /** A full setup enables reception besides, and that is all it adds. */
  lemma ReceiveEnables(gpio: bv16, f: Frequency)
    ensures WithReceive(gpio, f) & 0x0040 == 0x0040
    ensures WithReceive(gpio, f) & 0xFFBF == WithPath(gpio, f) & 0xFFBF
  {
    hide WithPath;
    BareEnables(WithPath(gpio, f));
  }

  /** Below 280 MHz the amplifier on is the one of bit 2, and from there on that of bit 3; the
      other is off. */
  lemma PathIsOfItsSide(gpio: bv16, f: Frequency)
    ensures WithPath(gpio, f) & 0x000C == if f < 280_000_000 then 0x0004 else 0x0008
    ensures WithReceive(gpio, f) & 0x000C == if f < 280_000_000 then 0x0004 else 0x0008
  {
    PathSelects(gpio, f);
  }

  /** Selecting a path turns on exactly one amplifier. */
  lemma PathSelects(gpio: bv16, f: Frequency)
    ensures WithPath(gpio, f) & LNA_BITS == LnaBit(f)
    ensures WithReceive(gpio, f) & LNA_BITS == LnaBit(f)
  {
    BarePathSelects(gpio, LnaBit(f));
  }

  /** Re-selecting replaces the amplifier and nothing else. */
  lemma PathReplaces(gpio: bv16, f: Frequency, g: Frequency)
    ensures WithPath(WithReceive(gpio, f), g) == WithReceive(gpio, g)
  {
    hide With, Without;
    PathWords(gpio, LnaBit(f), LnaBit(g));
  }

  lemma PathWords(g: bv16, a: bv16, b: bv16)
    requires (a == 0x0004 || a == 0x0008) && (b == 0x0004 || b == 0x0008)
    ensures With(Without(With(With(Without(g, LNA_BITS), a), GPIO_RX_ENABLE), LNA_BITS), b)
         == With(With(Without(g, LNA_BITS), b), GPIO_RX_ENABLE)
  {}

  /** A probe leaves the front end right exactly when it was right before or the probe
      crossed the boundary, although only a crossing writes it. */
  lemma ProbeKeepsFrontEndExactlyWhen(p: Profile, before: Radio, f: Frequency, after: Radio)
    requires before.state.Receiving? && Outcome(p, before, Probe(f), after, None)
    ensures FrontEnd(after, f) <==> FrontEnd(before, before.state.frequency) || Crosses(before.state.frequency, f)
  {
    PathSelects(before.gpioOut, f);
    hide With, Without, WordsOf, WithPath, WithReceive;
  }

  /** Operations that leave a receiving radio receiving and its path selected. */
  predicate KeepsPath(op: Operation) { op.Probe? || op.Watch? || op.StartToneScan? }

  predicate AllPass(events: seq<Event>) {
    forall i :: 0 <= i < |events| ==> KeepsPath(events[i].op) && events[i].error.None?
  }

  /** After a full receive setup, any run of probes, re-probes and readings leaves the output
      word a full setup at the last frequency would have left, with exactly that side's
      amplifier on. */
  lemma {:induction false} IncrementalRetuneIsFull(p: Profile, gpio: bv16, start: Radio, events: seq<Event>)
    requires start.state.Receiving? && start.gpioOut == start.core.gpio == WithReceive(gpio, start.state.frequency)
    requires IsRun(p, start, events) && AllPass(events)
    ensures var end := Last(start, events);
            end.state.Receiving? && FrontEnd(end, end.state.frequency)
            && end.gpioOut == end.core.gpio == WithReceive(gpio, end.state.frequency)
    decreases |events|
  {
    hide Outcome, WithReceive, WithPath, KeepsPath, LnaBit;
    if events == [] {
      PathSelects(gpio, start.state.frequency);
    } else {
      var e, rest := events[0], events[1..];
      forall i | 0 <= i < |rest| ensures KeepsPath(rest[i].op) && rest[i].error.None? {
        assert rest[i] == events[i + 1];
      }
      OneRetune(p, gpio, start, e);
      IncrementalRetuneIsFull(p, gpio, e.after, rest);
    }
  }

  lemma OneRetune(p: Profile, gpio: bv16, start: Radio, e: Event)
    requires start.state.Receiving? && start.gpioOut == start.core.gpio == WithReceive(gpio, start.state.frequency)
    requires Outcome(p, start, e.op, e.after, None) && KeepsPath(e.op)
    ensures e.after.state.Receiving?
    ensures e.after.gpioOut == e.after.core.gpio == WithReceive(gpio, e.after.state.frequency)
  {
    hide With, Without, WordsOf, WithPath, WithReceive, LnaBit;
    if e.op.Probe? {
      var f, g := start.state.frequency, e.op.frequency;
      PathReplaces(gpio, f, g);
      if !Crosses(f, g) { SameSide(gpio, f, g); }
    }
  }

  lemma SameSide(gpio: bv16, f: Frequency, g: Frequency)
    requires !Crosses(f, g)
    ensures WithReceive(gpio, f) == WithReceive(gpio, g)
  {
    SameAmplifier(f, g);
    hide LnaBit;
  }

  lemma SameAmplifier(f: Frequency, g: Frequency)
    requires !Crosses(f, g)
    ensures LnaBit(f) == LnaBit(g)
  {}
}
