/** What each input tells the adapter and why it is refused: the tuning and the audio reported,
    the times armed, the channel landed on, and the exact cause of every error. */
module ReceiveReport {
  import opened Wrappers
  import opened ChannelPlan
  import opened ReceiveControl
  import opened ReceiveHistory

  // ---------------------------------------------------------------- What is reported

  /** A report of success gives the audio as it now is, and the tuning whenever it changed. */
  predicate Tells(before: Control, step: Step) {
    step.result.Ok? ==>
      && step.result.value.audioOpen == step.after.audioOpen
      && Activated(step.after) == if step.result.value.activation.Some? then step.result.value.activation.value
                                  else Activated(before)
  }

  /** A timer armed for a hold runs for the hold time, and any other for the dwell time. */
  predicate TimesWell(input: Input, step: Step) {
    step.result.Ok? && step.result.value.timer.Arm? ==>
      step.result.value.timer.afterMs == if step.after.state == Scanning(Hold) && !input.SetDualWatch?
                                         then step.after.config.scanHoldMs else step.after.config.scanDwellMs
  }

  lemma SelectedTells(c: Control, index: nat)
    ensures Tells(c, Selected(c, index))
    ensures Selected(c, index).result.Ok? ==> Selected(c, index).result.value == Update(
                Some(Activated(Selected(c, index).after)), Selected(c, index).after.audioOpen, Cancel)
  {
    hide ChannelSetup, InView;
  }

  lemma SelectingTells(c: Control, input: Input)
    requires Good(c) && Selecting(input)
    ensures Tells(c, After(c, input)) && TimesWell(input, After(c, input))
  {
    var d, index := ChoiceOf(c, input);
    hide After, Selected, InView, ChannelSetup, Activated;
    if index.Some? { SelectedTells(d, index.value); }
  }

  /** What a choice of channel comes to: a selection, over the new view if it is one, or a refusal
      that changes nothing. */
  lemma ChoiceOf(c: Control, input: Input) returns (d: Control, chosen: Option<nat>)
    requires Good(c) && Selecting(input)
    ensures d == if input.SetView? then c.(view := input.view, partner := None) else c
    ensures chosen.Some? ==> After(c, input) == Selected(d, chosen.value)
    ensures chosen.None? ==> After(c, input).after == c && After(c, input).result.Err?
                               && After(c, input).result != Err(TimerTokenExhausted)
  {
    hide Selected, Marks.Next, Marks.Nth, InView, ViewMarks, CallingMarks;
    d := if input.SetView? then c.(view := input.view, partner := None) else c;
    match input
    case SetView(view) => chosen := Marks.Nth(ViewMarks(c.source, view), 0);
    case Select(index) => chosen := Some(index);
    case SelectVisible(position) => chosen := Marks.Nth(ViewMarks(c.source, c.view), position);
    case SelectCalling => chosen := Marks.Nth(CallingMarks(c.source, c.view), 0);
    case SelectNext => chosen := Marks.Next(Eligible(c.source, c.view, false), c.index, true);
    case SelectPrevious => chosen := Marks.Next(Eligible(c.source, c.view, false), c.index, false);
  }

  lemma TuningTells(c: Control, input: Input)
    requires Good(c) && (input.EnterVfo? || input.EnterMemory? || input.Tune? || input.TuneTo? || input.SetMonitor?)
    ensures Tells(c, After(c, input)) && TimesWell(input, After(c, input))
  {
    hide ChannelSetup, InView, Validate, EffectiveSquelch;
  }

  lemma SwitchingTells(c: Control, input: Input)
    requires Good(c)
    requires input.SkipQuiet? || input.RestartDwell? || input.StartScanning? || input.StopScanning?
    ensures Tells(c, After(c, input)) && TimesWell(input, After(c, input))
  {
    hide ChannelSetup, InView, Validate, EffectiveSquelch, Marks.Next, Eligible;
  }

  lemma WatchingTells(c: Control, input: Input)
    requires Good(c) && input.SetDualWatch?
    ensures Tells(c, After(c, input)) && TimesWell(input, After(c, input))
  {
    hide ChannelSetup, InView, Validate, EffectiveSquelch, Marks.Next, Eligible;
  }

  /** A move tells the tuning it arrives at. */
  lemma AdvancedTells(c: Control, input: Input)
    requires Good(c)
    ensures Tells(c, Advanced(c)) && TimesWell(input, Advanced(c))
  {
    hide ChannelSetup, InView, Validate, EffectiveSquelch, Marks.Next, Eligible;
  }

  lemma WatchTells(c: Control, input: Input)
    requires Good(c) && c.state.Idle?
    ensures Tells(c, WatchElapsed(c)) && TimesWell(input, WatchElapsed(c))
  {
    hide ChannelSetup, InView, Validate, EffectiveSquelch;
  }

  lemma SameTuning(c: Control, d: Control)
    requires c == d.(audioOpen := c.audioOpen)
    ensures Activated(c) == Activated(d)
  {
    hide ChannelSetup, EffectiveSquelch;
  }

  lemma BusyTells(c: Control, input: Input)
    requires Good(c) && input.Observe? && input.observation.Busy()
    ensures Tells(c, Observed(c, input.observation)) && TimesWell(input, Observed(c, input.observation))
  {
    hide ChannelSetup, InView, Validate, EffectiveSquelch, Advanced;
  }

  lemma QuietTells(c: Control, input: Input)
    requires Good(c) && input.Observe? && !input.observation.Busy()
    ensures Tells(c, Observed(c, input.observation)) && TimesWell(input, Observed(c, input.observation))
  {
    var d := c.(audioOpen := c.monitor);
    AdvancedTells(d, input);
    SameTuning(c, d);
    hide ChannelSetup, InView, Validate, EffectiveSquelch, Advanced, Activated;
  }

  lemma ObservedIsAfter(c: Control, input: Input)
    requires Good(c) && input.Observe?
    ensures After(c, input) == Observed(c, input.observation)
  {
    hide Observed;
  }

  lemma ExpiryTells(c: Control, input: Input)
    requires Good(c) && input.TimerElapsed?
    ensures Tells(c, After(c, input)) && TimesWell(input, After(c, input))
  {
    AdvancedTells(c, input);
    if c.state.Idle? { WatchTells(c, input); }
    hide ChannelSetup, InView, Validate, EffectiveSquelch, Advanced, WatchElapsed;
  }

  /** Whatever succeeds reports the audio as it leaves it, and a retune exactly to the selection
      it leaves; where it reports none the selection is tuned as it was. */
  lemma UpdateTellsSelection(c: Control, input: Input)
    requires Good(c)
    ensures Tells(c, After(c, input)) && TimesWell(input, After(c, input))
  {
    hide After, Tells, TimesWell, Good;
    if Selecting(input) {
      SelectingTells(c, input);
    } else if input.Observe? {
      if input.observation.Busy() { BusyTells(c, input); } else { QuietTells(c, input); }
      ObservedIsAfter(c, input);
    } else if input.TimerElapsed? {
      ExpiryTells(c, input);
    } else if input.EnterVfo? || input.EnterMemory? || input.Tune? || input.TuneTo? || input.SetMonitor? {
      TuningTells(c, input);
    } else if input.SetDualWatch? {
      WatchingTells(c, input);
    } else {
      SwitchingTells(c, input);
    }
  }

  // ---------------------------------------------------------------- The receiver that obeys

  /** A receiver as its adapter keeps it: what it is tuned to, and whether it is heard. */
  datatype Receiver = Receiver(tuned: Activation, audible: bool)

  function Obeyed(r: Receiver, result: Result<Update, ReceiveError>): Receiver {
    if result.Err? then r
    else Receiver(if result.value.activation.Some? then result.value.activation.value else r.tuned,
                  result.value.audioOpen)
  }

  /** The receiver after the first `k` inputs. */
  function Heard(c: Control, r: Receiver, inputs: seq<Input>, k: nat): Receiver
    requires Good(c) && k <= |inputs|
  {
    if k == 0 then r
    else Obeyed(Heard(c, r, inputs, k - 1), After(At(c, inputs, k - 1), inputs[k - 1]).result)
  }

  function Follows(c: Control): Receiver { Receiver(Activated(c), c.audioOpen) }

  lemma OneInputFollows(c: Control, input: Input)
    requires Good(c) && After(c, input).result != Err(TimerTokenExhausted)
    ensures Obeyed(Follows(c), After(c, input).result) == Follows(After(c, input).after)
  {
    assert c.index < |c.source|;
    UpdateTellsSelection(c, input);
    hide After, Activated, AlreadySo, Good, TimesWell;
    if After(c, input).result.Err? { FailureChangesNothingExactlyWhen(c, input); }
  }

  /** Over every run in which no input finds the tokens gone, a receiver that does what each
      update says is tuned to the controller's selection and heard exactly while audio is open. */
  lemma {:induction false} ReceiverFollows(c: Control, inputs: seq<Input>, n: nat)
    requires Good(c) && n <= |inputs|
    requires forall k :: 0 <= k < n ==> After(At(c, inputs, k), inputs[k]).result != Err(TimerTokenExhausted)
    ensures Heard(c, Follows(c), inputs, n) == Follows(At(c, inputs, n))
    decreases n
  {
    hide After, Obeyed, Follows, Good;
    if n > 0 {
      ReceiverFollows(c, inputs, n - 1);
      OneInputFollows(At(c, inputs, n - 1), inputs[n - 1]);
    }
  }

  /** A watch that swaps the channel selected with its partner. */
  predicate Swaps(c: Control, input: Input) {
    && input.TimerElapsed? && c.activeTimer == Some(input.token) && c.state.Idle?
    && c.partner.Some? && !c.audioOpen
    && c.partner.value < |c.source| && InView(c.view, c.source[c.partner.value])
  }

  /** A swap that changes the tuning, and finds no token for its timer. */
  predicate SwapsUnarmed(c: Control, input: Input) {
    c.nextToken == U32_MAX && Swaps(c, input) && (c.mode.Vfo? || c.partner.value != c.index)
  }

  /** With no token left the receiver stays tuned to the selection all the same, if and only if
      the input is not a watch swapping channels. */
  lemma TuningFollowsExactlyWhen(c: Control, input: Input)
    requires Good(c)
    ensures Obeyed(Follows(c), After(c, input).result).tuned == Activated(After(c, input).after) <==>
              !SwapsUnarmed(c, input)
  {
    hide After, SwapsUnarmed, Activated, AlreadySo, InView, Validate;
    UpdateTellsSelection(c, input);
    if After(c, input).result == Err(TimerTokenExhausted) {
      ExhaustedTuning(c, input);
    } else if After(c, input).result.Err? {
      FailureChangesNothingExactlyWhen(c, input);
      SwapFindsNone(c, input);
    } else {
      SwapFindsNone(c, input);
    }
  }

  lemma SwapFindsNone(c: Control, input: Input)
    requires Good(c)
    ensures SwapsUnarmed(c, input) ==> After(c, input).result == Err(TimerTokenExhausted)
  {
    hide ChannelSetup, InView, Validate;
  }

  lemma ExhaustedTuning(c: Control, input: Input)
    requires Good(c) && After(c, input).result == Err(TimerTokenExhausted)
    ensures Activated(After(c, input).after) == Activated(c) <==> !SwapsUnarmed(c, input)
  {
    if Selecting(input) {
      ExhaustsNone(c, input);
    } else if input.TimerElapsed? {
      ExpiredTuning(c, input);
    } else {
      hide ChannelSetup, InView, Validate, Marks.Next, Marks.Nth, Eligible, SwapsUnarmed;
      OnlyExpirySwaps(c, input);
    }
  }

  lemma OnlyExpirySwaps(c: Control, input: Input)
    requires !input.TimerElapsed?
    ensures !SwapsUnarmed(c, input)
  {}

  lemma ExpiredTuning(c: Control, input: Input)
    requires Good(c) && After(c, input).result == Err(TimerTokenExhausted) && input.TimerElapsed?
    ensures Activated(After(c, input).after) == Activated(c) <==> !SwapsUnarmed(c, input)
  {
    hide ChannelSetup, InView, Validate, Marks.Next, Marks.Nth, Eligible;
  }

  lemma ExhaustsNone(c: Control, input: Input)
    requires Good(c) && Selecting(input)
    ensures After(c, input).result != Err(TimerTokenExhausted)
  {
    hide Marks.Next, Marks.Nth, InView, ChannelSetup, ViewMarks, CallingMarks, Eligible;
  }

  // ---------------------------------------------------------------- Where a choice lands

  lemma SelectedLands(c: Control, index: nat)
    requires index < |c.source| && InView(c.view, c.source[index])
    ensures Selected(c, index).result.Ok? && IsSelected(c, index, Selected(c, index).after)
    ensures Selected(c, index).after.index == index
  {
    hide ChannelSetup, InView, Activated;
  }

  /** The controller on a channel of its own, at rest, with audio as the monitor has it. */
  predicate IsSelected(c: Control, index: nat, d: Control) {
    && index < |c.source| && d.index == index && d.channel == c.source[index] && d.view == c.view
    && d.mode.Memory? && d.state.Idle? && d.activeTimer.None? && d.audioOpen == c.monitor
    && d.partner == c.partner && d.vfo == c.vfo && d.monitor == c.monitor
  }

  /** Going on or back lands on the first channel of the view past the selection in the order of
      the space, and starts again at the other end after the last. */
  lemma NeighboursComeInOrder(c: Control, forward: bool)
    requires Good(c)
    ensures var step := After(c, if forward then SelectNext else SelectPrevious);
            && step.result.Ok? && IsSelected(c, step.after.index, step.after)
            && Marks.IsFirstPast(ViewMarks(c.source, c.view), c.index, forward, step.after.index)
  {
    var marks := Eligible(c.source, c.view, false);
    assert marks == ViewMarks(c.source, c.view);
    assert marks[c.index];
    Marks.NextInOrder(marks, c.index, forward);
    SelectedLands(c, Marks.Next(marks, c.index, forward).value);
    hide Selected, InView, Marks.IsFirstPast, Marks.Next, IsSelected;
  }

  /** A scan's move lands likewise on the first channel past it that is in view and not skipped. */
  lemma ScanMovesInOrder(c: Control)
    requires Good(c) && !c.channel.IsScanSkipped() && c.nextToken < U32_MAX
    ensures |Eligible(c.source, c.view, true)| == |c.source|
    ensures Marks.IsFirstPast(Eligible(c.source, c.view, true), c.index, true, MoveTarget(c))
  {
    IsEligible(c);
    Marks.NextInOrder(Eligible(c.source, c.view, true), c.index, true);
    hide Good, InView, Marks.IsFirstPast, Marks.Next;
  }

  /** The least index marked, if there is one. */
  lemma FirstMarked(marks: seq<bool>)
    ensures match Marks.Nth(marks, 0)
            case None => forall k :: 0 <= k < |marks| ==> !marks[k]
            case Some(i) => i < |marks| && marks[i] && forall k :: 0 <= k < i ==> !marks[k]
  {
    Marks.NthUndoesCount(marks, 0, 0);
    if Marks.Nth(marks, 0).Some? {
      Marks.NthUndoesCount(marks, 0, Marks.Nth(marks, 0).value);
      Marks.SameCount(marks, 0, Marks.Nth(marks, 0).value);
    } else {
      Marks.SameCount(marks, 0, |marks|);
    }
  }

  /** A new view starts on its first channel and watches nothing. */
  lemma ViewStartsOnItsFirst(c: Control, view: Option<View>)
    requires Good(c)
    ensures var step := After(c, SetView(view));
            if forall k :: 0 <= k < |c.source| ==> !InView(view, c.source[k])
            then step == Step(c, Err(NoEligibleChannel))
            else && step.result.Ok? && IsSelected(c.(view := view, partner := None), step.after.index, step.after)
                 && InView(view, c.source[step.after.index])
                 && forall k :: 0 <= k < step.after.index ==> !InView(view, c.source[k])
  {
    var marks := ViewMarks(c.source, view);
    FirstMarked(marks);
    hide Selected, InView, IsSelected, Marks.Nth;
    if Marks.Nth(marks, 0).Some? {
      var first := Marks.Nth(marks, 0).value;
      assert marks[first] == InView(view, c.source[first]);
      SelectedLands(c.(view := view, partner := None), first);
      assert forall k :: 0 <= k < first ==> marks[k] == InView(view, c.source[k]);
    } else {
      assert forall k :: 0 <= k < |marks| ==> marks[k] == InView(view, c.source[k]);
    }
  }

  predicate IsCalling(c: Control, index: nat) {
    index < |c.source| && InView(c.view, c.source[index]) && c.source[index].flags.calling
  }

  /** Calling goes to the calling channel of least index in the view, if it has any. */
  lemma CallingIsTheLeast(c: Control)
    requires Good(c)
    ensures var step := After(c, SelectCalling);
            if forall k :: 0 <= k < |c.source| ==> !IsCalling(c, k)
            then step == Step(c, Err(NoEligibleChannel))
            else && step.result.Ok? && IsSelected(c, step.after.index, step.after)
                 && IsCalling(c, step.after.index)
                 && forall k :: 0 <= k < step.after.index ==> !IsCalling(c, k)
  {
    var marks := CallingMarks(c.source, c.view);
    FirstMarked(marks);
    hide Selected, InView, IsSelected, Marks.Nth;
    assert forall k :: 0 <= k < |marks| ==> marks[k] == IsCalling(c, k);
    if Marks.Nth(marks, 0).Some? {
      SelectedLands(c, Marks.Nth(marks, 0).value);
    }
  }

  /** A channel can be chosen by index exactly when the space has it and the view shows it. */
  lemma SelectingByIndex(c: Control, index: u16)
    requires Good(c)
    ensures var step := After(c, Select(index));
            if index < |c.source| && InView(c.view, c.source[index])
            then step.result.Ok? && IsSelected(c, index, step.after)
            else step == Step(c, Err(IndexOutOfRange))
  {
    hide IsSelected, InView, ChannelSetup, Activated;
    if index < |c.source| && InView(c.view, c.source[index]) { SelectedLands(c, index); }
  }

  // ---------------------------------------------------------------- Manual tuning

  /** Manual tuning starts where the channel is: entering it tunes to just what going back to
      the channel would, and both are refused exactly while scanning. */
  lemma VfoStartsOnTheChannel(c: Control)
    requires Good(c)
    ensures var vfo, memory := After(c, EnterVfo), After(c, EnterMemory);
            if c.state.Scanning? then vfo == memory == Step(c, Err(InvalidState(c.state)))
            else && vfo.result.Ok? && memory.result.Ok? && vfo.after.mode.Vfo? && memory.after.mode.Memory?
                 && Activated(vfo.after).selection == VfoTuning
                 && Activated(memory.after).selection == MemoryChannel(c.index, c.channel.id)
                 && Activated(vfo.after).setup == Activated(memory.after).setup
                 && vfo.after.index == memory.after.index == c.index && memory.after.vfo == c.vfo
                 && vfo.after.audioOpen == memory.after.audioOpen == c.monitor
  {
    hide InView, Validate;
  }

  /** What a channel is received with: where it is sent when reversed, and with the squelch open
      while monitoring. */
  lemma ChannelIsReceivedAs(c: Control)
    requires c.mode.Memory?
    ensures var setup := Activated(c).setup;
            && setup.frequency == (if c.channel.flags.reverse then c.channel.transmit else c.channel.receive)
            && setup.squelch == (if c.monitor then 0 else c.config.squelch)
            && setup.modulation == c.channel.modulation && setup.bandwidth == c.channel.bandwidth
            && setup.tone == c.channel.rxTone && setup.step == c.channel.step
  {}

  /** Manual tuning while monitoring differs by the squelch alone. */
  lemma VfoIsReceivedAs(c: Control)
    requires c.mode.Vfo?
    ensures Activated(c) == Activation(VfoTuning, c.vfo.(squelch := if c.monitor then 0 else c.vfo.squelch))
  {}

  function SteppedBy(f: Frequency, step: FrequencyStep, up: bool): int { if up then f + step else f - step }

  /** A step up raises the frequency by the step and a step down lowers it, refused exactly past
      either end, and a step the other way undoes it. */
  lemma StepsGoTheirWay(c: Control, up: bool)
    requires Good(c) && c.mode.Vfo?
    ensures var hertz := SteppedBy(c.vfo.frequency, c.vfo.step, up);
            var there := After(c, Tune(up));
            if 1 <= hertz <= U32_MAX
            then && there.result.Ok? && Good(there.after)
                 && there.after.vfo == c.vfo.(frequency := hertz)
                 && Activated(there.after).setup.frequency == hertz
                 && After(there.after, Tune(!up)).result.Ok? && After(there.after, Tune(!up)).after.vfo == c.vfo
            else there == Step(c, Err(TuningLimit))
  {
    InputKeepsGood(c, Tune(up));
    hide InView, Validate;
  }

  /** Tuning by number changes the frequency and nothing else of the tuning, and neither way of
      tuning moves the channel. */
  lemma TuningByNumber(c: Control, f: Frequency)
    requires Good(c)
    ensures var step := After(c, TuneTo(f));
            if c.mode.Vfo?
            then step.result.Ok? && step.after == c.(vfo := c.vfo.(frequency := f), audioOpen := c.monitor)
            else step == Step(c, Err(InvalidMode(c.mode))) && After(c, Tune(true)) == step == After(c, Tune(false))
  {
    hide InView, Validate, ChannelSetup;
  }

  // ---------------------------------------------------------------- What an input leaves alone

  /** What becomes of the parts no other result speaks of, for an input that selects nothing. */
  predicate LeavesRest(c: Control, input: Input)
    requires c.index < |c.source|
  {
    var d, r := After(c, input).after, After(c, input).result;
    && d.view == c.view
    && (d.vfo == c.vfo || (r.Ok? && (input.EnterVfo? || input.Tune? || input.TuneTo?)))
    && d.mode == (if r.Ok? && input.EnterVfo? then Vfo
                  else if (r.Ok? && input.EnterMemory?) || Swaps(c, input) then Memory else c.mode)
    && d.partner == (if input.SetDualWatch? && (r.Ok? || r == Err(TimerTokenExhausted)) then input.partner
                     else if r.Ok? && input.StartScanning? then None
                     else if Swaps(c, input) then Some(c.index) else c.partner)
    && ((d.index == c.index && d.channel == c.channel) || Advances(c, input) || Swaps(c, input))
    && (c.state.Idle? ==> d.state == if r.Ok? && input.StartScanning? then Scanning(Dwell) else Idle)
  }

  lemma TuningLeaves(c: Control, input: Input)
    requires Good(c) && (input.EnterVfo? || input.EnterMemory? || input.Tune? || input.TuneTo? || input.SetMonitor?)
    ensures LeavesRest(c, input)
  {
    hide Activated, ChannelSetup, InView, Validate;
  }

  lemma SwitchingLeaves(c: Control, input: Input)
    requires Good(c)
    requires input.SkipQuiet? || input.RestartDwell? || input.StartScanning? || input.StopScanning?
    ensures LeavesRest(c, input)
  {
    hide Activated, ChannelSetup, InView, Validate, Marks.Next, Eligible;
  }

  lemma WatchingLeaves(c: Control, input: Input)
    requires Good(c) && input.SetDualWatch?
    ensures LeavesRest(c, input)
  {
    hide Activated, ChannelSetup, InView, Validate, Marks.Next, Eligible;
  }

  lemma BusyLeaves(c: Control, input: Input)
    requires Good(c) && input.Observe? && input.observation.Busy()
    ensures LeavesRest(c, input)
  {
    hide Activated, ChannelSetup, InView, Validate, Advanced;
  }

  lemma QuietLeaves(c: Control, input: Input)
    requires Good(c) && input.Observe? && !input.observation.Busy()
    ensures LeavesRest(c, input)
  {
    hide Activated, ChannelSetup, InView, Validate, Marks.Next, Eligible;
  }

  lemma ExpiryLeaves(c: Control, input: Input)
    requires Good(c) && input.TimerElapsed?
    ensures LeavesRest(c, input)
  {
    hide Activated, ChannelSetup, InView, Validate, Marks.Next, Eligible;
  }

  /** The view, the manual tuning, the mode, the partner and the channel change only by the
      inputs that are for them, and only starting a scan leaves rest. */
  lemma OtherwiseUnchanged(c: Control, input: Input)
    requires Good(c) && !Selecting(input)
    ensures LeavesRest(c, input)
  {
    hide After, LeavesRest, Good;
    if input.Observe? {
      if input.observation.Busy() { BusyLeaves(c, input); } else { QuietLeaves(c, input); }
    } else if input.TimerElapsed? {
      ExpiryLeaves(c, input);
    } else if input.EnterVfo? || input.EnterMemory? || input.Tune? || input.TuneTo? || input.SetMonitor? {
      TuningLeaves(c, input);
    } else if input.SetDualWatch? {
      WatchingLeaves(c, input);
    } else {
      SwitchingLeaves(c, input);
    }
  }

  // ---------------------------------------------------------------- Why an input is refused

  /** Some channel of the view a scan may land on. */
  predicate CanScan(c: Control) {
    exists k :: 0 <= k < |c.source| && InView(c.view, c.source[k]) && !c.source[k].IsScanSkipped()
  }

  predicate IsPartner(c: Control, partner: u16) {
    partner != c.index && partner < |c.source| && InView(c.view, c.source[partner])
  }

  /** The inputs that arm a timer, given a token for it. */
  predicate WouldArm(c: Control, input: Input) {
    match input
    case StartScanning => c.state.Idle? && c.mode.Memory? && CanScan(c)
    case SkipQuiet => c.state == Scanning(Dwell)
    case RestartDwell => c.state == Scanning(Dwell)
    case SetDualWatch(partner) => c.config.dualWatch && partner.Some? && IsPartner(c, partner.value)
    case Observe(o) =>
      c.state.Scanning? && if o.Busy() then !c.config.scanResume.Stop?
                           else c.state.phase.Hold? && c.config.scanResume.Carrier?
    case TimerElapsed(token) =>
      && c.activeTimer == Some(token)
      && (c.state.Idle? ==> Swaps(c, input) || (c.partner.Some? && c.audioOpen))
    case _ => false
  }

  /** Every error and its one cause, for every input. */
  predicate RefusedFor(c: Control, input: Input, r: Result<Update, ReceiveError>) {
    && (r == Err(TimerTokenExhausted) <==> c.nextToken == U32_MAX && WouldArm(c, input))
    && (r == Err(InvalidState(c.state)) <==>
          || ((input.EnterVfo? || input.EnterMemory? || input.StartScanning?) && c.state.Scanning?)
          || (input.StopScanning? && c.state.Idle?)
          || ((input.SkipQuiet? || input.RestartDwell?) && c.state != Scanning(Dwell)))
    && (r == Err(InvalidMode(c.mode)) <==>
          || ((input.Tune? || input.TuneTo?) && c.mode.Memory?)
          || (input.StartScanning? && c.state.Idle? && c.mode.Vfo?)
          || (input.SetDualWatch? && !c.config.dualWatch))
    && (r == Err(TuningLimit) <==>
          input.Tune? && c.mode.Vfo? && !(1 <= SteppedBy(c.vfo.frequency, c.vfo.step, input.up) <= U32_MAX))
    && (r == Err(NoEligibleChannel) <==>
          || (input.StartScanning? && c.state.Idle? && c.mode.Memory? && !CanScan(c))
          || (input.SelectCalling? && forall k :: 0 <= k < |c.source| ==> !IsCalling(c, k))
          || (input.SetView? && forall k :: 0 <= k < |c.source| ==> !InView(input.view, c.source[k])))
    && (r == Err(IndexOutOfRange) <==>
          || (input.Select? && !(input.index < |c.source| && InView(c.view, c.source[input.index])))
          || (input.SelectVisible? && input.position >= Marks.Total(ViewMarks(c.source, c.view)))
          || (input.SetDualWatch? && c.config.dualWatch && input.partner.Some? && !IsPartner(c, input.partner.value))
          || (input.TimerElapsed? && c.activeTimer == Some(input.token) && c.state.Idle? && c.partner.Some?
              && !c.audioOpen && !Swaps(c, input)))
    && (r.Ok? || r.error == TimerTokenExhausted || r.error == InvalidState(c.state) || r.error == InvalidMode(c.mode)
        || r.error == TuningLimit || r.error == NoEligibleChannel || r.error == IndexOutOfRange)
  }

  lemma CanScanIsNext(c: Control)
    requires Good(c)
    ensures Marks.Next(Eligible(c.source, c.view, true), c.index, true).Some? <==> CanScan(c)
  {
    var marks := Eligible(c.source, c.view, true);
    Marks.NextInOrder(marks, c.index, true);
    forall k | 0 <= k < |c.source|
      ensures marks[k] <==> InView(c.view, c.source[k]) && !c.source[k].IsScanSkipped() {}
    hide InView, Marks.Next, Marks.IsFirstPast;
  }

  lemma ViewRefused(c: Control, view: Option<View>)
    requires Good(c)
    ensures RefusedFor(c, SetView(view), After(c, SetView(view)).result)
  {
    ViewStartsOnItsFirst(c, view);
    hide After, InView, IsSelected, IsCalling, CanScan, Swaps, WouldArm;
    NeverArms(c, SetView(view));
  }

  lemma CallingRefused(c: Control)
    requires Good(c)
    ensures RefusedFor(c, SelectCalling, After(c, SelectCalling).result)
  {
    CallingIsTheLeast(c);
    hide After, InView, IsSelected, IsCalling, CanScan, Swaps, WouldArm;
    NeverArms(c, SelectCalling);
  }

  lemma IndexRefused(c: Control, input: Input)
    requires Good(c) && (input.Select? || input.SelectVisible?)
    ensures RefusedFor(c, input, After(c, input).result)
  {
    if input.Select? { SelectingByIndex(c, input.index); } else { VisibleRefused(c, input.position); }
    hide After, InView, IsSelected, IsCalling, CanScan, Swaps, WouldArm, ViewMarks, Marks.Total;
    NeverArms(c, input);
  }

  lemma NeighbourRefused(c: Control, input: Input)
    requires Good(c) && (input.SelectNext? || input.SelectPrevious?)
    ensures RefusedFor(c, input, After(c, input).result)
  {
    NeighboursComeInOrder(c, input.SelectNext?);
    hide After, InView, IsSelected, IsCalling, CanScan, Swaps, WouldArm, ViewMarks, Marks.Total, Marks.IsFirstPast;
    NeverArms(c, input);
  }

  lemma NeverArms(c: Control, input: Input)
    requires Selecting(input)
    ensures !WouldArm(c, input) && !Swaps(c, input)
  {}

  lemma SelectingRefused(c: Control, input: Input)
    requires Good(c) && Selecting(input)
    ensures RefusedFor(c, input, After(c, input).result)
  {
    hide After, RefusedFor;
    if input.SetView? {
      ViewRefused(c, input.view);
    } else if input.SelectCalling? {
      CallingRefused(c);
    } else if input.Select? || input.SelectVisible? {
      IndexRefused(c, input);
    } else {
      NeighbourRefused(c, input);
    }
  }

  lemma VisibleRefused(c: Control, position: u16)
    requires Good(c)
    ensures var r := After(c, SelectVisible(position)).result;
            if position < Marks.Total(ViewMarks(c.source, c.view)) then r.Ok? else r == Err(IndexOutOfRange)
  {
    VisiblePositionsAreSelectable(c, position);
    hide Marks.Total, ViewMarks, InView, ChannelSetup, Activated, Marks.Nth;
  }

  lemma TuningRefused(c: Control, input: Input)
    requires Good(c) && (input.EnterVfo? || input.EnterMemory? || input.Tune? || input.TuneTo? || input.SetMonitor?)
    ensures RefusedFor(c, input, After(c, input).result)
  {
    hide Activated, ChannelSetup, InView, Validate, CanScan;
  }

  lemma SwitchingRefused(c: Control, input: Input)
    requires Good(c)
    requires input.SkipQuiet? || input.RestartDwell? || input.StartScanning? || input.StopScanning?
    ensures RefusedFor(c, input, After(c, input).result)
  {
    CanScanIsNext(c);
    hide Activated, ChannelSetup, InView, Validate, CanScan, Marks.Next, Eligible;
  }

  lemma WatchingRefused(c: Control, input: Input)
    requires Good(c) && input.SetDualWatch?
    ensures RefusedFor(c, input, After(c, input).result)
  {
    hide Activated, ChannelSetup, InView, Validate, CanScan, Marks.Next, Eligible;
  }

  lemma ObservingRefused(c: Control, input: Input)
    requires Good(c) && input.Observe?
    ensures RefusedFor(c, input, After(c, input).result)
  {
    hide Activated, ChannelSetup, InView, Validate, CanScan, Marks.Next, Eligible;
  }

  lemma ExpiryRefused(c: Control, input: Input)
    requires Good(c) && input.TimerElapsed?
    ensures RefusedFor(c, input, After(c, input).result)
  {
    hide Activated, ChannelSetup, InView, Validate, CanScan, Marks.Next, Eligible;
  }

  /** An input fails for the cause named and only for it, and otherwise succeeds. */
  lemma RefusedExactlyWhen(c: Control, input: Input)
    requires Good(c)
    ensures RefusedFor(c, input, After(c, input).result)
  {
    hide After, RefusedFor, Good;
    if Selecting(input) {
      SelectingRefused(c, input);
    } else if input.Observe? {
      ObservingRefused(c, input);
    } else if input.TimerElapsed? {
      ExpiryRefused(c, input);
    } else if input.EnterVfo? || input.EnterMemory? || input.Tune? || input.TuneTo? || input.SetMonitor? {
      TuningRefused(c, input);
    } else if input.SetDualWatch? {
      WatchingRefused(c, input);
    } else {
      SwitchingRefused(c, input);
    }
  }

  // ---------------------------------------------------------------- How it starts

  /** A configuration is refused exactly for a time of nothing, or else for a choice past the last,
      and activation then refuses it with the same error. */
  lemma ConfigIsRefusedFor(s: Source, config: RadioConfig, view: Option<View>, keep: Option<(BankId, nat)>)
    ensures var zero := config.scanDwellMs == 0 || config.scanHoldMs == 0;
            var past := config.batterySaveRatio > 5 || config.txPower >= 6 || config.txTimeout >= 5;
            var r := ActivatedAt(s, config, view, keep);
            && (r == Err(InvalidConfig(Zero)) <==> zero)
            && (r == Err(InvalidConfig(DomainError.OutOfRange)) <==> !zero && past)
            && (r == Err(NoEligibleChannel) <==> !zero && !past && forall i :: 0 <= i < |s| ==> !InView(view, s[i]))
  {
    ActivationFindsAChannel(s, config, view, keep);
    FirstInView(s, view);
    hide InView, Marks.Nth, ViewMarks, PlaceOf, IndexOf, Fresh;
  }

  /** A controller starts in memory mode on its channel, at rest and quiet, with nothing watched
      and every token ahead of it. */
  lemma ActivationStartsQuietly(s: Source, config: RadioConfig, view: Option<View>, keep: Option<(BankId, nat)>)
    requires ActivatedAt(s, config, view, keep).Ok?
    ensures var c := ActivatedAt(s, config, view, keep).value;
            && c.source == s && c.config == config && c.view == view && c.mode.Memory?
            && c.channel == s[c.index] && c.state.Idle? && !c.monitor && !c.audioOpen
            && c.partner.None? && c.activeTimer.None? && c.nextToken == 1
            && Activated(c) == Activation(MemoryChannel(c.index, c.channel.id), c.vfo)
  {
    hide InView, Marks.Nth, ViewMarks, IndexOf;
  }

  // ---------------------------------------------------------------- The timer that is held

  /** The adapter holds exactly the token that is active, scanning or watching. */
  predicate Agrees(s: Session) { s.held == s.control.activeTimer }

  /** What parts the adapter from the controller: an active token that expires into an error, or
      tuning by hand, or leaving it, while a token is active. */
  predicate Parts(c: Control, input: Input, r: Result<Update, ReceiveError>) {
    || (input.TimerElapsed? && c.activeTimer == Some(input.token) && r.Err?)
    || (c.activeTimer.Some? && r.Ok? && (input.EnterVfo? || input.EnterMemory? || input.Tune? || input.TuneTo?))
  }

  predicate AgreesAfter(s: Session, input: Input)
    requires s.control.index < |s.control.source|
  {
    Agrees(Fed(s, input)) <==> !Parts(s.control, input, After(s.control, input).result)
  }

  lemma SelectingAgrees(s: Session, input: Input)
    requires Good(s.control) && Agrees(s) && Selecting(input)
    ensures AgreesAfter(s, input)
  {
    var d, index := ChoiceOf(s.control, input);
    assert s.control.index < |s.control.source|;
    hide After, Selected, Good;
    if index.Some? { OneCancels(d, index.value); }
  }

  predicate SelectedCancels(c: Control, index: nat) {
    var step := Selected(c, index);
    if step.result.Ok? then step.result.value.timer.Cancel? && step.after.activeTimer.None?
    else step.after.activeTimer == c.activeTimer
  }

  lemma OneCancels(c: Control, index: nat)
    ensures SelectedCancels(c, index)
  {
    hide Activated, InView;
  }

  lemma TuningAgrees(s: Session, input: Input)
    requires Good(s.control) && Agrees(s)
    requires input.EnterVfo? || input.EnterMemory? || input.Tune? || input.TuneTo? || input.SetMonitor?
    ensures AgreesAfter(s, input)
  {
    hide Activated, ChannelSetup, InView, Validate;
  }

  /** A move arms the token it makes active, or leaves the active token as it was. */
  lemma AdvancedArms(c: Control)
    requires c.index < |c.source|
    ensures var step := Advanced(c);
            if step.result.Ok?
            then step.result.value.timer.Arm? && step.after.activeTimer == Some(step.result.value.timer.token)
            else step.after.activeTimer == c.activeTimer
  {
    hide Activated, InView, Marks.Next, Eligible;
  }

  lemma SkippingAgrees(s: Session, input: Input)
    requires Good(s.control) && Agrees(s) && input.SkipQuiet?
    ensures AgreesAfter(s, input)
  {
    hide Advanced, InView, Validate;
    AdvancedArms(s.control);
  }

  lemma SwitchingAgrees(s: Session, input: Input)
    requires Good(s.control) && Agrees(s) && (input.RestartDwell? || input.StartScanning? || input.StopScanning?)
    ensures AgreesAfter(s, input)
  {
    hide Activated, ChannelSetup, InView, Validate, Marks.Next, Eligible, Advanced;
  }

  lemma WatchingAgrees(s: Session, input: Input)
    requires Good(s.control) && Agrees(s) && input.SetDualWatch?
    ensures AgreesAfter(s, input)
  {
    hide Activated, ChannelSetup, InView, Validate;
  }

  lemma BusyAgrees(s: Session, input: Input)
    requires Good(s.control) && Agrees(s) && input.Observe? && input.observation.Busy()
    ensures AgreesAfter(s, input)
  {
    hide Advanced, InView, Validate;
  }

  lemma QuietAgrees(s: Session, input: Input)
    requires Good(s.control) && Agrees(s) && input.Observe? && !input.observation.Busy()
    ensures AgreesAfter(s, input)
  {
    hide Advanced, InView, Validate;
    AdvancedArms(s.control.(audioOpen := s.control.monitor));
  }

  /** What an expired token leaves the adapter with: nothing held, until it is told otherwise. */
  predicate Rearms(c: Control, step: Step) {
    if step.result.Ok? then Applied(None, step.result.value.timer) == step.after.activeTimer
    else step.after.activeTimer == c.activeTimer
  }

  lemma WatchRearms(c: Control)
    ensures Rearms(c, WatchElapsed(c))
  {
    hide Activated, InView;
  }

  lemma ScanRearms(c: Control)
    requires c.index < |c.source|
    ensures Rearms(c, Advanced(c)) && Rearms(c, Armed(c, c.config.scanHoldMs))
  {
    AdvancedArms(c);
    hide Advanced;
  }

  lemma ExpiryRearms(c: Control, input: Input)
    requires Good(c) && input.TimerElapsed? && c.activeTimer == Some(input.token)
    ensures Rearms(c, After(c, input))
  {
    WatchRearms(c);
    ScanRearms(c);
    hide Advanced, WatchElapsed, Armed, Rearms, InView, Validate;
  }

  lemma ExpiryAgrees(s: Session, input: Input)
    requires Good(s.control) && Agrees(s) && input.TimerElapsed?
    ensures AgreesAfter(s, input)
  {
    if s.control.activeTimer == Some(input.token) {
      ExpiryRearms(s.control, input);
      assert s.control.index < |s.control.source|;
      hide After, Good;
    } else {
      hide Advanced, WatchElapsed, Armed, InView, Validate;
    }
  }

  /** From any state in which the adapter holds the active token, watches included, an input
      leaves it so if and only if it does not part them. */
  lemma TimerAgreesExactlyWhen(s: Session, input: Input)
    requires Good(s.control) && Agrees(s)
    ensures Agrees(Fed(s, input)) <==> !Parts(s.control, input, After(s.control, input).result)
  {
    assert s.control.index < |s.control.source|;
    hide After, Parts, Good, Fed, Agrees;
    if Selecting(input) {
      SelectingAgrees(s, input);
    } else if input.Observe? {
      if input.observation.Busy() { BusyAgrees(s, input); } else { QuietAgrees(s, input); }
    } else if input.TimerElapsed? {
      ExpiryAgrees(s, input);
    } else if input.EnterVfo? || input.EnterMemory? || input.Tune? || input.TuneTo? || input.SetMonitor? {
      TuningAgrees(s, input);
    } else if input.SetDualWatch? {
      WatchingAgrees(s, input);
    } else if input.SkipQuiet? {
      SkippingAgrees(s, input);
    } else {
      SwitchingAgrees(s, input);
    }
  }

  // ---------------------------------------------------------------- When a retune is reported

  /** The inputs that retune: whatever selects or tunes, the monitor, a watch that swaps, and a
      scan that moves while some channel can be moved to. */
  predicate Retunes(c: Control, input: Input) {
    || Selecting(input) || input.EnterVfo? || input.EnterMemory? || input.Tune? || input.TuneTo? || input.SetMonitor?
    || Swaps(c, input) || (Advances(c, input) && CanScan(c))
  }

  predicate RetunesAsTold(c: Control, input: Input)
    requires c.index < |c.source|
  {
    After(c, input).result.Ok? ==> (After(c, input).result.value.activation.Some? <==> Retunes(c, input))
  }

  lemma SelectingRetunes(c: Control, input: Input)
    requires Good(c) && Selecting(input)
    ensures RetunesAsTold(c, input)
  {
    var d, index := ChoiceOf(c, input);
    hide After, Selected, InView, ChannelSetup, Activated;
    if index.Some? { SelectedTells(d, index.value); }
  }

  lemma AdvancedRetunes(c: Control)
    requires Good(c)
    ensures Advanced(c).result.Ok? ==> (Advanced(c).result.value.activation.Some? <==> CanScan(c))
  {
    CanScanIsNext(c);
    hide ChannelSetup, InView, Validate, Activated, Marks.Next, Eligible, CanScan;
  }

  lemma ObservingRetunes(c: Control, input: Input)
    requires Good(c) && input.Observe?
    ensures RetunesAsTold(c, input)
  {
    AdvancedRetunes(c.(audioOpen := c.monitor));
    hide InView, Validate, Advanced;
  }

  lemma ExpiryRetunes(c: Control, input: Input)
    requires Good(c) && input.TimerElapsed?
    ensures RetunesAsTold(c, input)
  {
    AdvancedRetunes(c);
    hide ChannelSetup, InView, Validate, Activated, Advanced, CanScan;
  }

  lemma OtherRetunes(c: Control, input: Input)
    requires Good(c) && !Selecting(input) && !input.Observe? && !input.TimerElapsed?
    ensures RetunesAsTold(c, input)
  {
    CanScanIsNext(c);
    hide ChannelSetup, InView, Validate, Activated, Marks.Next, Eligible, CanScan;
  }

  /** A success reports a retune if and only if the input is one that retunes. */
  lemma RetuneReportedExactlyWhen(c: Control, input: Input)
    requires Good(c)
    ensures RetunesAsTold(c, input)
  {
    hide After, RetunesAsTold, Good;
    if Selecting(input) {
      SelectingRetunes(c, input);
    } else if input.Observe? {
      ObservingRetunes(c, input);
    } else if input.TimerElapsed? {
      ExpiryRetunes(c, input);
    } else {
      OtherRetunes(c, input);
    }
  }
}
