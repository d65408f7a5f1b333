/** Receive control over an index space: what every input does to the controller, as a
    function of its state. */
module ReceiveControl {
  import opened Wrappers
  import opened ChannelPlan
  import Marks

  // ---------------------------------------------------------------- Views and places

  /** A source that answers every index below its length. */
  type Source = s: seq<ChannelRecord> | |s| <= U16_MAX witness []

  datatype View = Bank(id: BankId) | Banks(banks: set<BankId>)

  predicate Holds(view: View, bank: Option<BankId>) {
    match view
    case Bank(id) => bank == Some(id)
    case Banks(banks) => bank.Some? && bank.value in banks
  }

  predicate InView(view: Option<View>, c: ChannelRecord) {
    view.None? || Holds(view.value, c.bank)
  }

  function ViewMarks(s: Source, view: Option<View>): seq<bool> {
    seq(|s|, i requires 0 <= i < |s| => InView(view, s[i]))
  }

  /** Which channels a walk may land on; a scan passes over the skipped ones. */
  function Eligible(s: Source, view: Option<View>, scanning: bool): seq<bool> {
    seq(|s|, i requires 0 <= i < |s| => InView(view, s[i]) && !(scanning && s[i].IsScanSkipped()))
  }

  function CallingMarks(s: Source, view: Option<View>): seq<bool> {
    seq(|s|, i requires 0 <= i < |s| => InView(view, s[i]) && s[i].flags.calling)
  }

  function BankMarks(s: Source, bank: BankId): seq<bool> {
    seq(|s|, i requires 0 <= i < |s| => s[i].IsMemberOf(bank))
  }

  /** One bank's channels in order. */
  function BankChannels(s: Source, bank: BankId): seq<ChannelRecord> {
    Marks.Kept(s, BankMarks(s, bank))
  }

  /** The bank a channel is in, and how many of that bank come before it. */
  function PlaceOf(s: Source, index: nat): Option<(BankId, nat)> {
    if index < |s| && s[index].bank.Some?
    then Some((s[index].bank.value, Marks.Count(BankMarks(s, s[index].bank.value), index)))
    else None
  }

  /** Where a bank's channel at a position is. */
  function IndexOf(s: Source, bank: BankId, position: nat): Option<nat> {
    Marks.Nth(BankMarks(s, bank), position)
  }

  // ---------------------------------------------------------------- State

  datatype ScanResume = TimeOut | Carrier | Stop

  datatype RadioConfig = RadioConfig(squelch: u8, scanResume: ScanResume, scanDwellMs: u32, scanHoldMs: u32,
                                     dualWatch: bool, batterySaveRatio: u8, txPower: u8, txTimeout: u8)

  const MAX_BATTERY_SAVE_RATIO: u8 := 5
  const TX_POWER_LEVELS: u8 := 6
  const TX_TIMEOUT_CHOICES: u8 := 5
  const SQUELCH_OPEN: u8 := 0

  function Validate(config: RadioConfig): Result<RadioConfig, DomainError> {
    if config.scanDwellMs == 0 || config.scanHoldMs == 0 then Err(Zero)
    else if config.batterySaveRatio > MAX_BATTERY_SAVE_RATIO || config.txPower >= TX_POWER_LEVELS
            || config.txTimeout >= TX_TIMEOUT_CHOICES
    then Err(DomainError.OutOfRange)
    else Ok(config)
  }

  datatype ScanPhase = Dwell | Hold
  datatype ReceiveState = Idle | Scanning(phase: ScanPhase)
  datatype ReceiveMode = Memory | Vfo
  datatype Setup = Setup(frequency: Frequency, modulation: Modulation, bandwidth: Bandwidth, tone: Tone,
                         squelch: u8, step: FrequencyStep)
  datatype Selection = MemoryChannel(index: nat, id: ChannelId) | VfoTuning
  datatype Activation = Activation(selection: Selection, setup: Setup)

  datatype Directive = Unchanged | Cancel | Arm(token: u32, afterMs: u32)
  datatype Update = Update(activation: Option<Activation>, audioOpen: bool, timer: Directive)

  datatype ReceiveError =
    | NoEligibleChannel | IndexOutOfRange | InvalidState(state: ReceiveState) | InvalidMode(mode: ReceiveMode)
    | TuningLimit | TimerTokenExhausted | InvalidConfig(error: DomainError)

  datatype Control = Control(
    source: Source, config: RadioConfig, view: Option<View>, mode: ReceiveMode, index: u16, channel: ChannelRecord,
    vfo: Setup, monitor: bool, audioOpen: bool, state: ReceiveState, partner: Option<u16>,
    activeTimer: Option<u32>, nextToken: u32)

  /** The record held is the source's own and in the view, manual tuning never scans, and
      the token a timer is active under has been issued. */
  predicate Good(c: Control) {
    && c.index < |c.source|
    && c.channel == c.source[c.index]
    && InView(c.view, c.channel)
    && (c.mode.Vfo? ==> c.state.Idle?)
    && (c.activeTimer.Some? ==> c.activeTimer.value < c.nextToken)
    && Validate(c.config).Ok?
  }

  // ---------------------------------------------------------------- Settings

  function EffectiveSquelch(squelch: u8, monitor: bool): u8 { if monitor then SQUELCH_OPEN else squelch }

  function ActiveReceive(c: ChannelRecord): Frequency { if c.flags.reverse then c.transmit else c.receive }

  function ChannelSetup(c: ChannelRecord, squelch: u8, monitor: bool): Setup {
    Setup(ActiveReceive(c), c.modulation, c.bandwidth, c.rxTone, EffectiveSquelch(squelch, monitor), c.step)
  }

  function Activated(c: Control): Activation {
    match c.mode
    case Memory =>
      Activation(MemoryChannel(c.index, c.channel.id), ChannelSetup(c.channel, c.config.squelch, c.monitor))
    case Vfo => Activation(VfoTuning, c.vfo.(squelch := EffectiveSquelch(c.vfo.squelch, c.monitor)))
  }

  // ---------------------------------------------------------------- Inputs

  datatype Observation = Observation(squelchOpen: bool, toneMatched: Option<bool>) {
    predicate Busy() { squelchOpen && (toneMatched.Some? ==> toneMatched.value) }
  }

  datatype Input =
    | SetView(view: Option<View>) | Select(index: u16) | SelectVisible(position: u16) | SelectCalling
    | SelectNext | SelectPrevious | EnterVfo | EnterMemory | Tune(up: bool) | TuneTo(frequency: Frequency)
    | SetMonitor(monitor: bool) | SetDualWatch(partner: Option<u16>) | StartScanning | StopScanning
    | SkipQuiet | RestartDwell | Observe(observation: Observation) | TimerElapsed(token: u32)

  datatype Step = Step(after: Control, result: Result<Update, ReceiveError>)

  function Refused(c: Control, e: ReceiveError): Step { Step(c, Err(e)) }

  /** Success that tunes to the selection. */
  function Tuned(c: Control, timer: Directive): Step { Step(c, Ok(Update(Some(Activated(c)), c.audioOpen, timer))) }

  /** Success that leaves the tuning alone. */
  function Kept(c: Control, timer: Directive): Step { Step(c, Ok(Update(None, c.audioOpen, timer))) }

  /** Success that arms the next token, if one is left. */
  function Armed(c: Control, afterMs: u32): Step {
    if c.nextToken == U32_MAX then Refused(c, TimerTokenExhausted)
    else Kept(c.(activeTimer := Some(c.nextToken), nextToken := c.nextToken + 1), Arm(c.nextToken, afterMs))
  }

  function Selected(c: Control, index: nat): Step {
    if index >= |c.source| || !InView(c.view, c.source[index]) then Refused(c, IndexOutOfRange)
    else Tuned(c.(index := index, channel := c.source[index], mode := Memory, state := Idle, activeTimer := None,
                  audioOpen := c.monitor), Cancel)
  }

  function SelectedOr(c: Control, index: Option<nat>, e: ReceiveError): Step {
    if index.None? then Refused(c, e) else Selected(c, index.value)
  }

  function Retuned(c: Control, frequency: Frequency): Step {
    if c.mode != Vfo then Refused(c, InvalidMode(c.mode))
    else Tuned(c.(vfo := c.vfo.(frequency := frequency), audioOpen := c.monitor), Cancel)
  }

  function SteppedTuning(c: Control, up: bool): Step {
    var hertz: int := if up then c.vfo.frequency + c.vfo.step else c.vfo.frequency - c.vfo.step;
    if c.mode != Vfo then Refused(c, InvalidMode(c.mode))
    else if hertz < 1 || hertz > U32_MAX then Refused(c, TuningLimit)
    else Retuned(c, hertz)
  }

  /** A scan's move to the next channel; with nowhere to go it dwells where it is. */
  function Advanced(c: Control): Step
    requires c.index < |c.source|
  {
    var next := Marks.Next(Eligible(c.source, c.view, true), c.index, true);
    var armed := Armed(c.(state := Scanning(Dwell), audioOpen := c.monitor), c.config.scanDwellMs);
    if armed.result.Err? || next.None? then armed
    else Tuned(armed.after.(index := next.value, channel := c.source[next.value]), armed.result.value.timer)
  }

  function Watched(c: Control, partner: Option<u16>): Step {
    if !c.config.dualWatch then Refused(c, InvalidMode(c.mode))
    else if partner.Some? && (partner.value == c.index || Selected(c, partner.value).result.Err?)
    then Refused(c, IndexOutOfRange)
    else if partner.None? then Kept(c.(partner := None, activeTimer := None), Cancel)
    else Armed(c.(partner := partner), c.config.scanDwellMs)
  }

  function WatchElapsed(c: Control): Step {
    if c.partner.None? then Kept(c.(activeTimer := None), Unchanged)
    else if c.audioOpen then Armed(c, c.config.scanDwellMs)
    else if Selected(c, c.partner.value).result.Err? then Refused(c, IndexOutOfRange)
    else
      var d := c.(index := c.partner.value, channel := c.source[c.partner.value], mode := Memory,
                  partner := Some(c.index));
      var armed := Armed(d, c.config.scanDwellMs);
      if armed.result.Err? then armed else Tuned(armed.after, armed.result.value.timer)
  }

  function Started(c: Control): Step
    requires c.index < |c.source|
  {
    if c.state != Idle then Refused(c, InvalidState(c.state))
    else if c.mode != Memory then Refused(c, InvalidMode(c.mode))
    else if Marks.Next(Eligible(c.source, c.view, true), c.index, true).None? then Refused(c, NoEligibleChannel)
    else
      var armed := Armed(c, c.config.scanDwellMs);
      if armed.result.Err? then armed
      else Kept(armed.after.(state := Scanning(Dwell), partner := None), armed.result.value.timer)
  }

  function Observed(c: Control, o: Observation): Step
    requires c.index < |c.source|
  {
    var d := c.(audioOpen := c.monitor || o.Busy());
    if c.state.Idle? then Kept(d, Unchanged)
    else if o.Busy() && c.config.scanResume.Stop? then Kept(d.(state := Idle, activeTimer := None), Cancel)
    else if o.Busy() then
      var armed := Armed(d, c.config.scanHoldMs);
      if armed.result.Err? then armed else Kept(armed.after.(state := Scanning(Hold)), armed.result.value.timer)
    else if c.state.phase.Hold? && c.config.scanResume.Carrier? then Advanced(d)
    else Kept(d, Unchanged)
  }

  function Elapsed(c: Control, token: u32): Step
    requires c.index < |c.source|
  {
    if c.activeTimer != Some(token) then Kept(c, Unchanged)
    else match c.state
      case Idle => WatchElapsed(c)
      case Scanning(phase) =>
        if phase.Dwell? || c.config.scanResume.TimeOut? then Advanced(c) else Armed(c, c.config.scanHoldMs)
  }

  /** What one input does. */
  function After(c: Control, input: Input): Step
    requires c.index < |c.source|
  {
    match input
    case SetView(view) =>
      var first := Marks.Nth(ViewMarks(c.source, view), 0);
      if first.None? then Refused(c, NoEligibleChannel) else Selected(c.(view := view, partner := None), first.value)
    case Select(index) => Selected(c, index)
    case SelectVisible(position) => SelectedOr(c, Marks.Nth(ViewMarks(c.source, c.view), position), IndexOutOfRange)
    case SelectCalling => SelectedOr(c, Marks.Nth(CallingMarks(c.source, c.view), 0), NoEligibleChannel)
    case SelectNext =>
      SelectedOr(c, Marks.Next(Eligible(c.source, c.view, false), c.index, true), NoEligibleChannel)
    case SelectPrevious =>
      SelectedOr(c, Marks.Next(Eligible(c.source, c.view, false), c.index, false), NoEligibleChannel)
    case EnterVfo =>
      if c.state.Scanning? then Refused(c, InvalidState(c.state))
      else
        var vfo := ChannelSetup(c.channel, c.config.squelch, false);
        Tuned(c.(vfo := vfo, mode := Vfo, audioOpen := c.monitor), Cancel)
    case EnterMemory =>
      if c.state.Scanning? then Refused(c, InvalidState(c.state))
      else Tuned(c.(mode := Memory, audioOpen := c.monitor), Cancel)
    case Tune(up) => SteppedTuning(c, up)
    case TuneTo(frequency) => Retuned(c, frequency)
    case SetMonitor(monitor) => Tuned(c.(monitor := monitor, audioOpen := c.audioOpen || monitor), Unchanged)
    case SetDualWatch(partner) => Watched(c, partner)
    case StartScanning => Started(c)
    case StopScanning =>
      if c.state.Idle? then Refused(c, InvalidState(c.state)) else Kept(c.(state := Idle, activeTimer := None), Cancel)
    case SkipQuiet => if c.state != Scanning(Dwell) then Refused(c, InvalidState(c.state)) else Advanced(c)
    case RestartDwell =>
      if c.state != Scanning(Dwell) then Refused(c, InvalidState(c.state)) else Armed(c, c.config.scanDwellMs)
    case Observe(observation) => Observed(c, observation)
    case TimerElapsed(token) => Elapsed(c, token)
  }

  /** A controller as activation leaves it. */
  function Fresh(s: Source, config: RadioConfig, view: Option<View>, index: nat): Control
    requires index < |s|
  {
    Control(s, config, view, Memory, index, s[index], ChannelSetup(s[index], config.squelch, false), false, false, Idle,
            None, None, 1)
  }

  /** Activation over a replaced source, keeping one place if it survives. */
  function ActivatedAt(s: Source, config: RadioConfig, view: Option<View>, keep: Option<(BankId, nat)>)
    : (r: Result<Control, ReceiveError>)
    ensures r.Ok? ==> r.value.index < |s|
  {
    if Validate(config).Err? then Err(InvalidConfig(Validate(config).error))
    else
      var kept := if keep.None? then None else IndexOf(s, keep.value.0, keep.value.1);
      var index := if kept.Some? && InView(view, s[kept.value]) then kept else Marks.Nth(ViewMarks(s, view), 0);
      if index.None? then Err(NoEligibleChannel) else Ok(Fresh(s, config, view, index.value))
  }

  // ---------------------------------------------------------------- Selection

  /** Rank and select agree: position `p` can be selected exactly when it is below the number
      of visible channels, and it is then the position selected. */
  lemma VisiblePositionsAreSelectable(c: Control, position: u16)
    requires Good(c)
    ensures var marks := ViewMarks(c.source, c.view);
            var step := After(c, SelectVisible(position));
            && (step.result.Ok? <==> position < Marks.Total(marks))
            && (step.result.Ok? ==> Marks.Count(marks, step.after.index) == position)
            && Marks.Nth(marks, Marks.Count(marks, c.index)) == Some(c.index)
  {
    var marks := ViewMarks(c.source, c.view);
    Marks.NthUndoesCount(marks, position, 0);
    if position < Marks.Total(marks) {
      Marks.NthUndoesCount(marks, position, Marks.Nth(marks, position).value);
    }
    Marks.NthUndoesCount(marks, Marks.Count(marks, c.index), c.index);
  }

  /** Selecting the next channel and then the previous one, or the other way about, never
      fails and comes back to the same channel. */
  lemma PreviousUndoesNext(c: Control, first: Input, second: Input)
    requires Good(c)
    requires (first == SelectNext && second == SelectPrevious) || (first == SelectPrevious && second == SelectNext)
    ensures var there := After(c, first);
            && there.result.Ok? && there.after.index < |c.source|
            && var back := After(there.after, second);
               back.result.Ok? && back.after.index == c.index && back.after.channel == c.channel
  {
    var marks := Eligible(c.source, c.view, false);
    assert marks[c.index];
    Marks.BackUndoesOn(marks, c.index, first == SelectNext);
  }

  /** A place and an index lead to each other. */
  lemma PlacesAndIndicesAreInverse(s: Source, bank: BankId, position: nat, index: nat)
    ensures IndexOf(s, bank, position) == Some(index) <==> PlaceOf(s, index) == Some((bank, position))
  {
    Marks.NthUndoesCount(BankMarks(s, bank), position, index);
  }

  /** The channel an operator is on survives a rebuild over any source that leaves its bank's
      channels alone, wherever the bank has moved to. */
  lemma KeptPlaceSurvives(c: Control, s: Source, config: RadioConfig, view: Option<View>)
    requires Good(c) && c.channel.bank.Some? && Validate(config).Ok? && InView(view, c.channel)
    requires BankChannels(s, c.channel.bank.value) == BankChannels(c.source, c.channel.bank.value)
    ensures PlaceOf(c.source, c.index).Some?
    ensures var r := ActivatedAt(s, config, view, PlaceOf(c.source, c.index));
            && r.Ok? && Good(r.value) && r.value.channel == c.channel
            && PlaceOf(s, r.value.index) == PlaceOf(c.source, c.index)
  {
    var bank := c.channel.bank.value;
    var position := PlaceOf(c.source, c.index).value.1;
    Marks.KeptAtRank(c.source, BankMarks(c.source, bank), c.index);
    Marks.KeptAtRank(s, BankMarks(s, bank), 0);
    Marks.NthUndoesCount(BankMarks(s, bank), position, 0);
    var index := IndexOf(s, bank, position).value;
    PlacesAndIndicesAreInverse(s, bank, position, index);
    Marks.KeptAtRank(s, BankMarks(s, bank), index);
  }

  /** The first marked place exists when any does, and nothing before it is marked. */
  lemma FirstInView(s: Source, view: Option<View>)
    ensures var first := Marks.Nth(ViewMarks(s, view), 0);
            && (first.Some? <==> exists i :: 0 <= i < |s| && InView(view, s[i]))
            && (first.Some? ==> first.value < |s| && InView(view, s[first.value])
                                && forall i :: 0 <= i < first.value ==> !InView(view, s[i]))
  {
    hide InView;
    var marks := ViewMarks(s, view);
    Marks.NthUndoesCount(marks, 0, 0);
    if i :| 0 <= i < |s| && InView(view, s[i]) {
      assert marks[i];
      Marks.CountGrows(marks, i, |s|);
    }
    if Marks.Nth(marks, 0).Some? {
      var first := Marks.Nth(marks, 0).value;
      Marks.NthUndoesCount(marks, 0, first);
      assert marks[first];
      forall i | 0 <= i < first ensures !InView(view, s[i]) {
        if marks[i] { Marks.CountGrows(marks, i, first); }
      }
    }
  }

  /** Activation succeeds exactly when the configuration is valid and the view has a channel,
      and starts on the kept place or else the first channel of the view. */
  lemma ActivationFindsAChannel(s: Source, config: RadioConfig, view: Option<View>, keep: Option<(BankId, nat)>)
    ensures var r := ActivatedAt(s, config, view, keep);
            && (r.Ok? <==> Validate(config).Ok? && exists i :: 0 <= i < |s| && InView(view, s[i]))
            && (r.Ok? ==> Good(r.value) && r.value.activeTimer.None? && r.value.state.Idle?
                          && (PlaceOf(s, r.value.index) == keep
                              || forall i :: 0 <= i < r.value.index ==> !InView(view, s[i])))
  {
    FirstInView(s, view);
    if keep.Some? && IndexOf(s, keep.value.0, keep.value.1).Some? {
      PlacesAndIndicesAreInverse(s, keep.value.0, keep.value.1, IndexOf(s, keep.value.0, keep.value.1).value);
    }
    hide InView, PlaceOf, Marks.Nth, ViewMarks, BankMarks;
  }

  // ---------------------------------------------------------------- Runs

  /** A controller and the one timer of the adapter that obeys it. */
  datatype Session = Session(control: Control, held: Option<u32>)

  function Applied(held: Option<u32>, timer: Directive): Option<u32> {
    match timer
    case Unchanged => held
    case Cancel => None
    case Arm(token, _) => Some(token)
  }

  /** The adapter drops a timer as it expires, and applies only what succeeds. */
  function Fed(s: Session, input: Input): Session
    requires s.control.index < |s.control.source|
  {
    var step := After(s.control, input);
    var held := if input.TimerElapsed? && s.held == Some(input.token) then None else s.held;
    Session(step.after, if step.result.Ok? then Applied(held, step.result.value.timer) else held)
  }

  /** The adapter holds exactly the active token, and there is one exactly while scanning. */
  predicate InStep(s: Session) {
    && Good(s.control)
    && s.held == s.control.activeTimer
    && (s.control.activeTimer.Some? <==> s.control.state.Scanning?)
  }

  /** A timer is active exactly while scanning. */
  predicate Disciplined(c: Control) {
    c.activeTimer.Some? <==> c.state.Scanning?
  }

  /** What every step is held to: a good controller of the same source, at most one token
      issued and that the next, and, for a `kept` discipline, the timer the directive leaves. */
  predicate ProperStep(c: Control, step: Step, kept: bool) {
    var d := step.after;
    && Good(d) && d.source == c.source && d.config == c.config
    && (if step.result.Ok? && step.result.value.timer.Arm?
        then d.nextToken == c.nextToken + 1 && step.result.value.timer.token == c.nextToken
             && d.activeTimer == Some(c.nextToken)
        else d.nextToken == c.nextToken)
    && (step.result == Err(TimerTokenExhausted) ==> c.nextToken == U32_MAX)
    && (kept && step.result != Err(TimerTokenExhausted) ==>
          && Disciplined(d)
          && (step.result.Err? ==> d == c)
          && (step.result.Ok? && step.result.value.timer.Unchanged? ==> d.activeTimer == c.activeTimer)
          && (step.result.Ok? && step.result.value.timer.Cancel? ==> d.activeTimer.None?))
  }

  predicate Proper(c: Control, input: Input)
    requires c.index < |c.source|
  {
    ProperStep(c, After(c, input), Disciplined(c) && !input.SetDualWatch?)
  }

  /** A scan's move arms a timer or finds no token left. */
  lemma AdvancedIsProper(c: Control)
    requires Good(c) && c.state.Scanning?
    ensures ProperStep(c, Advanced(c), true)
    ensures if Advanced(c).result.Ok? then Advanced(c).result.value.timer.Arm?
            else Advanced(c).result == Err(TimerTokenExhausted)
  {
    hide Marks.Next, Validate, Holds, Activated;
  }

  lemma ArmedIsProper(c: Control, afterMs: u32)
    requires Good(c) && c.state.Scanning?
    ensures ProperStep(c, Armed(c, afterMs), true)
    ensures if Armed(c, afterMs).result.Ok? then Armed(c, afterMs).result.value.timer.Arm?
            else Armed(c, afterMs).result == Err(TimerTokenExhausted)
  {
    hide Validate, InView;
  }

  lemma SelectedIsProper(c: Control, index: nat)
    requires Good(c)
    ensures ProperStep(c, Selected(c, index), Disciplined(c))
  {
    hide Validate, Holds, Activated;
  }

  lemma SelectingIsProper(c: Control, input: Input)
    requires Good(c)
    requires input.Select? || input.SelectVisible? || input.SelectCalling? || input.SelectNext? || input.SelectPrevious?
    ensures Proper(c, input)
  {
    forall index: nat ensures ProperStep(c, Selected(c, index), Disciplined(c)) { SelectedIsProper(c, index); }
    hide Selected, Marks.Next, Marks.Nth, Validate, InView, Disciplined;
  }

  lemma ViewingIsProper(c: Control, input: Input)
    requires Good(c) && input.SetView?
    ensures Proper(c, input)
    ensures After(c, input).result.Err? ==> After(c, input).after == c
  {
    hide Marks.Next, Validate, Holds, Activated;
    var marks := ViewMarks(c.source, input.view);
    var first := Marks.Nth(marks, 0);
    if first.Some? { assert marks[first.value] == InView(input.view, c.source[first.value]); }
  }

  lemma TuningIsProper(c: Control, input: Input)
    requires Good(c)
    requires input.EnterVfo? || input.EnterMemory? || input.Tune? || input.TuneTo? || input.SetMonitor?
    ensures Proper(c, input)
  {
    hide Validate, Holds, Activated;
  }

  lemma WatchingIsProper(c: Control, input: Input)
    requires Good(c) && input.SetDualWatch?
    ensures Proper(c, input)
  {
    hide Selected, Validate, InView;
  }

  lemma WatchElapsedIsProper(c: Control)
    requires Good(c) && c.state.Idle?
    ensures ProperStep(c, WatchElapsed(c), false)
  {
    hide Validate, Holds, Activated;
  }

  lemma ScanningIsProper(c: Control, input: Input)
    requires Good(c) && (input.SkipQuiet? || input.RestartDwell?)
    ensures Proper(c, input)
  {
    hide Advanced, Armed, Validate, InView;
    if c.state.Scanning? {
      AdvancedIsProper(c);
      ArmedIsProper(c, c.config.scanDwellMs);
    }
  }

  lemma SwitchingIsProper(c: Control, input: Input)
    requires Good(c) && (input.StartScanning? || input.StopScanning?)
    ensures Proper(c, input)
  {
    hide Marks.Next, Validate, InView, Eligible;
  }

  lemma QuietIsProper(c: Control, o: Observation)
    requires Good(c) && !o.Busy()
    ensures ProperStep(c, Observed(c, o), Disciplined(c))
  {
    hide Advanced, Validate, InView;
    if c.state.Scanning? { AdvancedIsProper(c.(audioOpen := c.monitor)); }
  }

  lemma BusyIsProper(c: Control, o: Observation)
    requires Good(c) && o.Busy()
    ensures ProperStep(c, Observed(c, o), Disciplined(c))
  {
    hide Advanced, Validate, InView;
  }

  lemma ObservingIsProper(c: Control, input: Input)
    requires Good(c) && input.Observe?
    ensures Proper(c, input)
  {
    hide Good, Observed, ProperStep, Disciplined;
    if input.observation.Busy() {
      BusyIsProper(c, input.observation);
    } else {
      QuietIsProper(c, input.observation);
    }
  }

  lemma ExpiryIsProper(c: Control, input: Input)
    requires Good(c) && input.TimerElapsed?
    ensures Proper(c, input)
    ensures Disciplined(c) && c.activeTimer == Some(input.token) ==>
              var r := After(c, input).result;
              if r.Ok? then r.value.timer.Arm? else r == Err(TimerTokenExhausted)
  {
    hide Advanced, Armed, WatchElapsed, Validate, InView;
    if c.state.Scanning? {
      AdvancedIsProper(c);
      ArmedIsProper(c, c.config.scanHoldMs);
    } else {
      WatchElapsedIsProper(c);
    }
  }

  lemma InputIsProper(c: Control, input: Input)
    requires Good(c)
    ensures Proper(c, input)
  {
    hide Good, After, Proper;
    match input
    case SetView(_) => ViewingIsProper(c, input);
    case EnterVfo => TuningIsProper(c, input);
    case EnterMemory => TuningIsProper(c, input);
    case Tune(_) => TuningIsProper(c, input);
    case TuneTo(_) => TuningIsProper(c, input);
    case SetMonitor(_) => TuningIsProper(c, input);
    case SetDualWatch(_) => WatchingIsProper(c, input);
    case StartScanning => SwitchingIsProper(c, input);
    case StopScanning => SwitchingIsProper(c, input);
    case SkipQuiet => ScanningIsProper(c, input);
    case RestartDwell => ScanningIsProper(c, input);
    case Observe(_) => ObservingIsProper(c, input);
    case TimerElapsed(_) => ExpiryIsProper(c, input);
    case _ => SelectingIsProper(c, input);
  }

  /** Every input keeps the record held, the view and the mode consistent. */
  lemma InputKeepsGood(c: Control, input: Input)
    requires Good(c)
    ensures Good(After(c, input).after)
    ensures After(c, input).after.source == c.source && After(c, input).after.config == c.config
  {
    hide After;
    InputIsProper(c, input);
  }

  /** Tokens are issued in order and never again: an input arms the next one or none. */
  lemma TokensIncrease(c: Control, input: Input)
    requires Good(c)
    ensures var step := After(c, input);
            && c.nextToken <= step.after.nextToken <= c.nextToken + 1
            && (step.result == Err(TimerTokenExhausted) ==> c.nextToken == U32_MAX)
            && (step.result.Ok? && step.result.value.timer.Arm? <==> step.after.nextToken == c.nextToken + 1)
            && (step.result.Ok? && step.result.value.timer.Arm? ==>
                  step.result.value.timer.token == c.nextToken && step.after.activeTimer == Some(c.nextToken))
  {
    hide After;
    InputIsProper(c, input);
  }

  /** A token that is not the active one changes nothing, in the controller or the adapter. */
  lemma StaleTokensChangeNothing(s: Session, token: u32)
    requires InStep(s) && s.control.activeTimer != Some(token)
    ensures Fed(s, TimerElapsed(token)) == s
    ensures After(s.control, TimerElapsed(token)).result == Ok(Update(None, s.control.audioOpen, Unchanged))
  {}

  /** What an input that finds no token left would have changed is already so: the partner it
      arms, the audio it opens or closes, or the channel it swaps to. A held scan that moves
      always changes, since it stops holding. */
  predicate AlreadySo(c: Control, input: Input) {
    match input
    case SetDualWatch(partner) => c.partner == partner
    case SkipQuiet => c.audioOpen == c.monitor
    case Observe(observation) => observation.Busy() && c.audioOpen
    case TimerElapsed(_) =>
      (match c.state
       case Idle => c.audioOpen || (c.partner == Some(c.index) && c.mode == Memory)
       case Scanning(phase) => if phase.Dwell? then c.audioOpen == c.monitor else !c.config.scanResume.TimeOut?)
    case _ => true
  }

  predicate FailsCleanly(c: Control, input: Input)
    requires c.index < |c.source|
  {
    After(c, input).after == c <==> After(c, input).result != Err(TimerTokenExhausted) || AlreadySo(c, input)
  }

  lemma FailedObservation(c: Control, input: Input)
    requires Good(c) && After(c, input).result.Err? && input.Observe?
    ensures FailsCleanly(c, input)
  {
    hide Marks.Next, Validate, ChannelSetup, Holds, Eligible;
  }

  lemma FailedExpiry(c: Control, input: Input)
    requires Good(c) && After(c, input).result.Err? && input.TimerElapsed?
    ensures FailsCleanly(c, input)
  {
    hide Marks.Next, Validate, ChannelSetup, Holds, Eligible;
  }

  lemma FailedView(c: Control, input: Input)
    requires Good(c) && After(c, input).result.Err? && input.SetView?
    ensures FailsCleanly(c, input)
  {
    hide Marks.Next, Validate, ChannelSetup, Holds;
    FirstInView(c.source, input.view);
  }

  lemma FailedChoice(c: Control, input: Input)
    requires Good(c) && After(c, input).result.Err? && !input.SetView?
    requires !input.Observe? && !input.TimerElapsed?
    ensures FailsCleanly(c, input)
  {
    hide Marks.Next, Validate, ChannelSetup, Holds;
  }

  /** An input that fails leaves the controller as it was, if and only if it fails for anything
      but a lack of tokens or would not have changed anything before it armed one. */
  lemma FailureChangesNothingExactlyWhen(c: Control, input: Input)
    requires Good(c) && After(c, input).result.Err?
    ensures After(c, input).after == c <==>
              After(c, input).result != Err(TimerTokenExhausted) || AlreadySo(c, input)
  {
    hide After, Good, AlreadySo;
    if input.Observe? {
      FailedObservation(c, input);
    } else if input.TimerElapsed? {
      FailedExpiry(c, input);
    } else if input.SetView? {
      FailedView(c, input);
    } else {
      FailedChoice(c, input);
    }
  }

  /** Every input but arming dual watch keeps the adapter's timer in step with the scan. */
  lemma InputKeepsStep(s: Session, input: Input)
    requires InStep(s) && !input.SetDualWatch? && After(s.control, input).result != Err(TimerTokenExhausted)
    ensures InStep(Fed(s, input))
  {
    hide After, Good;
    InputIsProper(s.control, input);
    if input.TimerElapsed? {
      ExpiryIsProper(s.control, input);
      if s.control.activeTimer != Some(input.token) { StaleTokensChangeNothing(s, input.token); }
    }
  }

  /** Arming or disarming dual watch keeps it exactly when it fails, or arms while a scan
      runs, or disarms while none does. */
  lemma DualWatchKeepsStepExactlyWhen(s: Session, partner: Option<u16>)
    requires InStep(s) && s.control.nextToken < U32_MAX
    ensures InStep(Fed(s, SetDualWatch(partner))) <==>
              || !s.control.config.dualWatch
              || (partner.Some? && (partner.value == s.control.index || partner.value >= |s.control.source|
                                    || !InView(s.control.view, s.control.source[partner.value])))
              || (partner.Some? <==> s.control.state.Scanning?)
  {
    InputKeepsGood(s.control, SetDualWatch(partner));
    hide Good, InView, ChannelSetup;
  }

  function Sessions(s: Session, inputs: seq<Input>): (r: Session)
    requires Good(s.control)
    ensures Good(r.control)
    decreases |inputs|
  {
    if inputs == [] then s
    else
      InputKeepsGood(s.control, inputs[0]);
      Sessions(Fed(s, inputs[0]), inputs[1..])
  }

  /** Over every run the held record is the source's own and in the view, and while tokens
      last the adapter holds exactly the token of the one timer, which runs exactly while a
      scan does. */
  lemma {:induction false} RunStaysInStep(s: Session, inputs: seq<Input>)
    requires InStep(s) && (forall i :: i in inputs ==> !i.SetDualWatch?)
    ensures var end := Sessions(s, inputs);
            && s.control.nextToken <= end.control.nextToken <= s.control.nextToken + |inputs|
            && (end.control.nextToken < U32_MAX ==> InStep(end))
    decreases |inputs|
  {
    if inputs != [] {
      hide InStep, Good, After, Fed;
      StepAlong(s, inputs);
      var next := Fed(s, inputs[0]);
      forall i | i in inputs[1..] ensures !i.SetDualWatch? {}
      if InStep(next) {
        RunStaysInStep(next, inputs[1..]);
      } else {
        TokensOnlyGrow(next, inputs[1..]);
      }
    }
  }

  lemma StepAlong(s: Session, inputs: seq<Input>)
    requires inputs != [] && InStep(s) && !inputs[0].SetDualWatch?
    ensures var next := Fed(s, inputs[0]);
            && Good(s.control) && Good(next.control) && Sessions(s, inputs) == Sessions(next, inputs[1..])
            && s.control.nextToken <= next.control.nextToken <= s.control.nextToken + 1
            && (InStep(next) || next.control.nextToken == U32_MAX)
  {
    hide After;
    InputKeepsGood(s.control, inputs[0]);
    TokensIncrease(s.control, inputs[0]);
    if After(s.control, inputs[0]).result != Err(TimerTokenExhausted) {
      InputKeepsStep(s, inputs[0]);
    }
  }

  lemma {:induction false} TokensOnlyGrow(s: Session, inputs: seq<Input>)
    requires Good(s.control)
    ensures s.control.nextToken <= Sessions(s, inputs).control.nextToken <= s.control.nextToken + |inputs|
    decreases |inputs|
  {
    hide After;
    if inputs != [] {
      InputKeepsGood(s.control, inputs[0]);
      TokensIncrease(s.control, inputs[0]);
      TokensOnlyGrow(Fed(s, inputs[0]), inputs[1..]);
    }
  }

  // ---------------------------------------------------------------- Round robin

  /** A scan's moves: `true` skips a quiet channel, `false` lets its dwell run out. */
  function Moves(c: Control, skips: seq<bool>): (r: Control)
    requires Good(c) && c.state == Scanning(Dwell) && c.activeTimer.Some? && c.nextToken + |skips| <= U32_MAX
    ensures Good(r)
    decreases |skips|
  {
    if skips == [] then c
    else
      MoveAdvances(c, skips[0]);
      Moves(Moved(c, skips[0]), skips[1..])
  }

  function Moved(c: Control, skip: bool): Control
    requires c.index < |c.source| && c.activeTimer.Some?
  {
    After(c, if skip then SkipQuiet else TimerElapsed(c.activeTimer.value)).after
  }

  lemma MoveAdvances(c: Control, skip: bool)
    requires Good(c) && c.state == Scanning(Dwell) && c.activeTimer.Some? && c.nextToken < U32_MAX
    ensures var d := Moved(c, skip);
            var next := Marks.Next(Eligible(c.source, c.view, true), c.index, true);
            && Good(d) && d.state == Scanning(Dwell) && d.activeTimer == Some(c.nextToken)
            && d.nextToken == c.nextToken + 1 && d.source == c.source && d.view == c.view
            && d.index == (if next.Some? then next.value else c.index)
  {
  }

  /** Dwells that run out and quiet channels skipped go round the eligible channels in turn. */
  lemma {:induction false} MovesGoRound(c: Control, skips: seq<bool>)
    requires Good(c) && c.state == Scanning(Dwell) && c.activeTimer.Some? && c.nextToken + |skips| <= U32_MAX
    requires !c.channel.IsScanSkipped()
    ensures Eligible(c.source, c.view, true)[c.index]
    ensures Moves(c, skips).index == Marks.Turn(Eligible(c.source, c.view, true), c.index, |skips|)
    decreases |skips|
  {
    hide Moved, Good, Eligible, Marks.Next;
    IsEligible(c);
    var marks := Eligible(c.source, c.view, true);
    if skips != [] {
      MoveAdvances(c, skips[0]);
      Marks.NextRank(marks, c.index, true);
      var d := Moved(c, skips[0]);
      IsEligible(d);
      MovesGoRound(d, skips[1..]);
      TurnFromNext(marks, c.index, |skips|);
    }
  }

  lemma IsEligible(c: Control)
    requires Good(c)
    ensures |Eligible(c.source, c.view, true)| == |c.source| && c.index < |c.source|
    ensures Eligible(c.source, c.view, true)[c.index] <==> !c.channel.IsScanSkipped()
  {}

  lemma {:induction false} TurnFromNext(marks: seq<bool>, i: nat, k: nat)
    requires i < |marks| && marks[i] && k >= 1
    ensures Marks.Next(marks, i, true).Some?
    ensures Marks.Turn(marks, i, k) == Marks.Turn(marks, Marks.Next(marks, i, true).value, k - 1)
    decreases k
  {
    Marks.NextRank(marks, i, true);
    if k > 1 { TurnFromNext(marks, i, k - 1); }
  }

  /** A scan starting on an eligible channel visits every eligible channel exactly once
      before it is back where it started. */
  lemma ScanVisitsEachOnce(c: Control, skips: seq<bool>, target: nat)
    requires Good(c) && c.state == Scanning(Dwell) && c.activeTimer.Some? && c.nextToken + |skips| <= U32_MAX
    requires !c.channel.IsScanSkipped() && target < |c.source| && Eligible(c.source, c.view, true)[target]
    requires |skips| == Marks.Total(Eligible(c.source, c.view, true))
    ensures Moves(c, skips).index == c.index
    ensures exists k :: 0 <= k < |skips| && Moves(c, skips[..k]).index == target
    ensures forall k, l :: 0 <= k < l < |skips| ==> Moves(c, skips[..k]).index != Moves(c, skips[..l]).index
  {
    hide Good, Eligible, Moves;
    var marks := Eligible(c.source, c.view, true);
    IsEligible(c);
    MovesGoRound(c, skips);
    Marks.TurnsVisitEachOnce(marks, c.index, target);
    forall k | 0 <= k < |skips| ensures Moves(c, skips[..k]).index == Marks.Turn(marks, c.index, k) {
      MovesGoRound(c, skips[..k]);
    }
    var k :| 0 <= k < |skips| && Marks.Turn(marks, c.index, k) == target;
    assert Moves(c, skips[..k]).index == target;
  }

  // ---------------------------------------------------------------- Two cases in point

  function PlainChannel(id: ChannelId): ChannelRecord {
    ChannelRecord(id, [0x41], 446_006_250, 446_006_250, NoTone, NoTone, Fm, Narrow, Low1, 12_500,
                  Flags(false, false, false, false, false), None)
  }

  /** A radio of two plain channels that allows dual watch. */
  function TwoChannels(state: ReceiveState, timer: Option<u32>, nextToken: u32): Control {
    var config := RadioConfig(0, TimeOut, 1_000, 1_000, true, 0, 0, 0);
    Control([PlainChannel(1), PlainChannel(2)], config, None, Memory, 0, PlainChannel(1),
            ChannelSetup(PlainChannel(1), 0, false), false, false, state, None, timer, nextToken)
  }

  /** Giving dual watch up in the middle of a scan stops the scan's timer and not the scan. */
  lemma DisarmingStrandsAScan()
    ensures var s := Session(TwoChannels(Scanning(Dwell), Some(1), 2), Some(1));
            var t := Fed(s, SetDualWatch(None));
            && InStep(s) && After(s.control, SetDualWatch(None)).result.Ok?
            && t.control.state == Scanning(Dwell) && t.held.None? && !InStep(t)
  {
    hide ChannelSetup;
  }

  /** With no token left, asking for dual watch fails and yet leaves its partner behind. */
  lemma ExhaustedWatchLeavesItsPartner()
    ensures var c := TwoChannels(Idle, None, U32_MAX);
            var step := After(c, SetDualWatch(Some(1)));
            && Good(c) && step.result == Err(TimerTokenExhausted)
            && c.partner.None? && step.after.partner == Some(1) && !AlreadySo(c, SetDualWatch(Some(1)))
  {
    hide ChannelSetup;
  }
}
