/** The receive controller as the radio runs it: fields updated in place, and loops over the
    index space. Every method does exactly what `ReceiveControl.After` says of its input. */
module ReceiveController {
  import opened Wrappers
  import opened ChannelPlan
  import opened ReceiveControl

  class BankedReceiveController {
    const source: Source
    const config: RadioConfig
    var view: Option<View>
    var mode: ReceiveMode
    var index: u16
    var channel: ChannelRecord
    var vfo: Setup
    var monitor: bool
    var audioOpen: bool
    var state: ReceiveState
    var partner: Option<u16>
    var activeTimer: Option<u32>
    var nextToken: u32

    ghost function Now(): Control
      reads this
    {
      Control(source, config, view, mode, index, channel, vfo, monitor, audioOpen, state, partner, activeTimer,
              nextToken)
    }

    ghost predicate Valid()
      reads this
    {
      Good(Now())
    }

    constructor (source: Source, config: RadioConfig, view: Option<View>, index: u16)
      requires index < |source|
      ensures Now() == Fresh(source, config, view, index)
    {
      this.source, this.config, this.view := source, config, view;
      mode, this.index, channel := Memory, index, source[index];
      vfo := ChannelSetup(source[index], config.squelch, false);
      monitor, audioOpen, state, partner, activeTimer, nextToken := false, false, Idle, None, None, 1;
    }

    /** A controller over a new source, on the place kept if the source still has it in view. */
    static method ActivateAt(source: Source, config: RadioConfig, view: Option<View>, keep: Option<(BankId, u16)>)
      returns (r: Result<BankedReceiveController, ReceiveError>)
      ensures var kept := if keep.None? then None else Some((keep.value.0, keep.value.1));
              var spec := ActivatedAt(source, config, view, kept);
              && (r.Ok? ==> fresh(r.value) && spec.Ok? && r.value.Now() == spec.value && r.value.Valid())
              && (r.Err? ==> spec.Err? && r.error == spec.error)
    {
      hide Good, InView, Marks.Nth, Validate, ChannelSetup;
      ActivationFindsAChannel(source, config, view, if keep.None? then None else Some((keep.value.0, keep.value.1)));
      var valid := Validate(config);
      if valid.Err? { return Err(InvalidConfig(valid.error)); }
      var kept := if keep.None? then None else IndexOf(source, keep.value.0, keep.value.1);
      var index := kept;
      if kept.None? || !InView(view, source[kept.value]) {
        index := FirstMember(source, view);
        if index.None? { return Err(NoEligibleChannel); }
      }
      var controller := new BankedReceiveController(source, config, view, index.value);
      return Ok(controller);
    }

    /** Where a view starts. */
    static method FirstMember(source: Source, view: Option<View>) returns (r: Option<nat>)
      ensures r == Marks.Nth(ViewMarks(source, view), 0)
    {
      hide InView;
      ghost var marks := ViewMarks(source, view);
      for i := 0 to |source|
        invariant Marks.Count(marks, i) == 0
      {
        if InView(view, source[i]) {
          Marks.NthUndoesCount(marks, 0, i);
          return Some(i);
        }
      }
      Marks.NthUndoesCount(marks, 0, 0);
      return None;
    }

    /** Steps around the source until a channel is eligible, for one round at most. */
    method Neighbour(forward: bool, scanning: bool) returns (r: Option<nat>)
      requires index < |source|
      ensures r == Marks.Next(Eligible(source, view, scanning), index, forward)
    {
      hide InView, Marks.Next;
      ghost var marks := Eligible(source, view, scanning);
      var count := |source|;
      var at: nat := index;
      var turns := 0;
      while turns < count
        invariant 0 <= turns <= count
        invariant at < count && at == Marks.Ahead(count, index, forward, turns)
        invariant forall e :: 1 <= e <= turns ==> !marks[Marks.Ahead(count, index, forward, e)]
      {
        at := if forward then (if at + 1 >= count then 0 else at + 1)
              else (if at == 0 then count - 1 else at - 1);
        turns := turns + 1;
        assert at == Marks.Ahead(count, index, forward, turns);
        if InView(view, source[at]) && !(scanning && source[at].IsScanSkipped()) {
          assert marks[at];
          Marks.NearestIsNext(marks, index, forward, Some(at));
          return Some(at);
        }
      }
      Marks.NearestIsNext(marks, index, forward, None);
      return None;
    }

    function Activation(): ReceiveControl.Activation
      reads this
    {
      match mode
      case Memory =>
        ReceiveControl.Activation(MemoryChannel(index, channel.id), ChannelSetup(channel, config.squelch, monitor))
      case Vfo => ReceiveControl.Activation(VfoTuning, vfo.(squelch := EffectiveSquelch(vfo.squelch, monitor)))
    }

    /** Reports the state reached, with a retune or without. */
    function Report(tuned: bool, timer: Directive): Result<Update, ReceiveError>
      reads this
    {
      Ok(Update(if tuned then Some(Activation()) else None, audioOpen, timer))
    }

    method FreshTimer(afterMs: u32) returns (r: Result<Directive, ReceiveError>)
      modifies `activeTimer, `nextToken
      ensures var armed := Armed(old(Now()), afterMs);
              && Now() == armed.after
              && (r.Ok? <==> armed.result.Ok?)
              && (r.Ok? ==> armed.result.value.timer == r.value)
              && (r.Err? ==> armed.result.error == r.error)
    {
      if nextToken == U32_MAX { return Err(TimerTokenExhausted); }
      var token := nextToken;
      nextToken := nextToken + 1;
      activeTimer := Some(token);
      return Ok(Arm(token, afterMs));
    }

    method Select(at: nat) returns (r: Result<Update, ReceiveError>)
      modifies this
      ensures var step := Selected(old(Now()), at); Now() == step.after && r == step.result
    {
      hide InView, ChannelSetup;
      if at >= |source| || !InView(view, source[at]) { return Err(IndexOutOfRange); }
      index, channel := at, source[at];
      mode, state, activeTimer, audioOpen := Memory, Idle, None, monitor;
      return Report(true, Cancel);
    }

    method SetView(view: Option<View>) returns (r: Result<Update, ReceiveError>)
      requires Valid()
      modifies this
      ensures var step := After(old(Now()), Input.SetView(view)); Now() == step.after && r == step.result
      ensures Valid()
    {
      hide InView, Good, Selected, Marks.Nth;
      InputKeepsGood(Now(), Input.SetView(view));
      var first := FirstMember(source, view);
      if first.None? { return Err(NoEligibleChannel); }
      this.view, partner := view, None;
      r := Select(first.value);
    }

    method SelectVisible(position: u16) returns (r: Result<Update, ReceiveError>)
      requires Valid()
      modifies this
      ensures var step := After(old(Now()), Input.SelectVisible(position)); Now() == step.after && r == step.result
      ensures Valid()
    {
      hide InView, Good, Selected, Marks.Nth;
      InputKeepsGood(Now(), Input.SelectVisible(position));
      var at := Marks.Nth(ViewMarks(source, view), position);
      if at.None? { return Err(IndexOutOfRange); }
      r := Select(at.value);
    }

    /** Goes to the calling channel with the lowest index in the view. */
    method SelectCalling() returns (r: Result<Update, ReceiveError>)
      requires Valid()
      modifies this
      ensures var step := After(old(Now()), Input.SelectCalling); Now() == step.after && r == step.result
      ensures Valid()
    {
      hide InView, Good, Selected, Marks.Nth;
      InputKeepsGood(Now(), Input.SelectCalling);
      ghost var marks := CallingMarks(source, view);
      for i := 0 to |source|
        invariant Marks.Count(marks, i) == 0
        invariant unchanged(this)
      {
        if InView(view, source[i]) && source[i].flags.calling {
          Marks.NthUndoesCount(marks, 0, i);
          r := Select(i);
          return;
        }
      }
      Marks.NthUndoesCount(marks, 0, 0);
      return Err(NoEligibleChannel);
    }

    method SelectNeighbour(forward: bool) returns (r: Result<Update, ReceiveError>)
      requires Valid()
      modifies this
      ensures var step := After(old(Now()), if forward then SelectNext else SelectPrevious);
              Now() == step.after && r == step.result
      ensures Valid()
    {
      InputKeepsGood(Now(), if forward then SelectNext else SelectPrevious);
      assert index < |source|;
      hide InView, Good, Selected, Marks.Next;
      var at := Neighbour(forward, false);
      if at.None? { return Err(NoEligibleChannel); }
      r := Select(at.value);
    }

    method EnterVfo() returns (r: Result<Update, ReceiveError>)
      requires Valid()
      modifies this
      ensures var step := After(old(Now()), Input.EnterVfo); Now() == step.after && r == step.result
      ensures Valid()
    {
      InputKeepsGood(Now(), Input.EnterVfo);
      hide Good, ChannelSetup;
      if state.Scanning? { return Err(InvalidState(state)); }
      vfo := ChannelSetup(channel, config.squelch, false);
      mode, audioOpen := Vfo, monitor;
      return Report(true, Cancel);
    }

    method EnterMemory() returns (r: Result<Update, ReceiveError>)
      requires Valid()
      modifies this
      ensures var step := After(old(Now()), Input.EnterMemory); Now() == step.after && r == step.result
      ensures Valid()
    {
      InputKeepsGood(Now(), Input.EnterMemory);
      hide Good, ChannelSetup;
      if state.Scanning? { return Err(InvalidState(state)); }
      mode, audioOpen := Memory, monitor;
      return Report(true, Cancel);
    }

    method Tune(up: bool) returns (r: Result<Update, ReceiveError>)
      requires Valid()
      modifies this
      ensures var step := After(old(Now()), Input.Tune(up)); Now() == step.after && r == step.result
      ensures Valid()
    {
      InputKeepsGood(Now(), Input.Tune(up));
      hide Good, ChannelSetup, Retuned;
      if mode != Vfo { return Err(InvalidMode(mode)); }
      var hertz: int;
      if up {
        hertz := vfo.frequency + vfo.step;
        if hertz > U32_MAX { return Err(TuningLimit); }
      } else {
        hertz := vfo.frequency - vfo.step;
        if hertz < 0 { return Err(TuningLimit); }
      }
      var frequency := FromHz(hertz);
      if frequency.Err? { return Err(TuningLimit); }
      r := TuneTo(frequency.value);
    }

    method TuneTo(frequency: Frequency) returns (r: Result<Update, ReceiveError>)
      requires Valid()
      modifies this
      ensures var step := After(old(Now()), Input.TuneTo(frequency)); Now() == step.after && r == step.result
      ensures Valid()
    {
      InputKeepsGood(Now(), Input.TuneTo(frequency));
      hide Good, ChannelSetup;
      if mode != Vfo { return Err(InvalidMode(mode)); }
      vfo := vfo.(frequency := frequency);
      audioOpen := monitor;
      return Report(true, Cancel);
    }

    method SetMonitor(monitor: bool) returns (r: Result<Update, ReceiveError>)
      requires Valid()
      modifies this
      ensures var step := After(old(Now()), Input.SetMonitor(monitor)); Now() == step.after && r == step.result
      ensures Valid()
    {
      InputKeepsGood(Now(), Input.SetMonitor(monitor));
      hide Good, ChannelSetup;
      this.monitor := monitor;
      if monitor { audioOpen := true; }
      return Report(true, Unchanged);
    }

    /** Takes a partner to watch, or gives watching up. */
    method SetDualWatch(partner: Option<u16>) returns (r: Result<Update, ReceiveError>)
      requires Valid()
      modifies this
      ensures var step := After(old(Now()), Input.SetDualWatch(partner)); Now() == step.after && r == step.result
      ensures Valid()
    {
      InputKeepsGood(Now(), Input.SetDualWatch(partner));
      hide Good, ChannelSetup, InView, Armed;
      if !config.dualWatch { return Err(InvalidMode(mode)); }
      if partner.Some? {
        var at := partner.value;
        if at >= |source| || !InView(view, source[at]) || at == index { return Err(IndexOutOfRange); }
      }
      this.partner := partner;
      if partner.Some? {
        var timer :- FreshTimer(config.scanDwellMs);
        return Report(false, timer);
      }
      activeTimer := None;
      return Report(false, Cancel);
    }

    method StartScanning() returns (r: Result<Update, ReceiveError>)
      requires Valid()
      modifies this
      ensures var step := After(old(Now()), Input.StartScanning); Now() == step.after && r == step.result
      ensures Valid()
    {
      InputKeepsGood(Now(), Input.StartScanning);
      assert index < |source|;
      hide Good, ChannelSetup, Eligible, Marks.Next;
      if state != Idle { return Err(InvalidState(state)); }
      if mode != Memory { return Err(InvalidMode(mode)); }
      var next := Neighbour(true, true);
      if next.None? { return Err(NoEligibleChannel); }
      var timer :- FreshTimer(config.scanDwellMs);
      state, partner := Scanning(Dwell), None;
      return Report(false, timer);
    }

    method StopScanning() returns (r: Result<Update, ReceiveError>)
      requires Valid()
      modifies this
      ensures var step := After(old(Now()), Input.StopScanning); Now() == step.after && r == step.result
      ensures Valid()
    {
      InputKeepsGood(Now(), Input.StopScanning);
      hide Good;
      if !state.Scanning? { return Err(InvalidState(state)); }
      state, activeTimer := Idle, None;
      return Report(false, Cancel);
    }

    method SkipQuiet() returns (r: Result<Update, ReceiveError>)
      requires Valid()
      modifies this
      ensures var step := After(old(Now()), Input.SkipQuiet); Now() == step.after && r == step.result
      ensures Valid()
    {
      InputKeepsGood(Now(), Input.SkipQuiet);
      assert index < |source|;
      hide Good, Advanced;
      if state != Scanning(Dwell) { return Err(InvalidState(state)); }
      r := AdvanceScan();
    }

    method RestartDwell() returns (r: Result<Update, ReceiveError>)
      requires Valid()
      modifies this
      ensures var step := After(old(Now()), Input.RestartDwell); Now() == step.after && r == step.result
      ensures Valid()
    {
      InputKeepsGood(Now(), Input.RestartDwell);
      hide Good;
      if state != Scanning(Dwell) { return Err(InvalidState(state)); }
      var timer :- FreshTimer(config.scanDwellMs);
      return Report(false, timer);
    }

    /** Applies one observation, gating the audio and moving a scan on or holding it. */
    method Observe(observation: Observation) returns (r: Result<Update, ReceiveError>)
      requires Valid()
      modifies this
      ensures var step := After(old(Now()), Input.Observe(observation)); Now() == step.after && r == step.result
      ensures Valid()
    {
      InputKeepsGood(Now(), Input.Observe(observation));
      assert index < |source|;
      hide Good, Advanced;
      var busy := observation.squelchOpen && (observation.toneMatched.None? || observation.toneMatched.value);
      audioOpen := monitor || busy;
      if !state.Scanning? { return Report(false, Unchanged); }
      if busy {
        if config.scanResume == Stop {
          state, activeTimer := Idle, None;
          return Report(false, Cancel);
        }
        var timer :- FreshTimer(config.scanHoldMs);
        state := Scanning(Hold);
        return Report(false, timer);
      }
      if state == Scanning(Hold) && config.scanResume == Carrier {
        r := AdvanceScan();
        return;
      }
      return Report(false, Unchanged);
    }

    /** What an expiry does, if its token is still the active one. */
    method TimerElapsed(token: u32) returns (r: Result<Update, ReceiveError>)
      requires Valid()
      modifies this
      ensures var step := After(old(Now()), Input.TimerElapsed(token)); Now() == step.after && r == step.result
      ensures Valid()
    {
      InputKeepsGood(Now(), Input.TimerElapsed(token));
      assert index < |source|;
      hide Good, Advanced, WatchElapsed;
      if activeTimer != Some(token) { return Report(false, Unchanged); }
      match state {
        case Idle =>
          r := DualWatchElapsed();
        case Scanning(phase) =>
          if phase == Dwell || config.scanResume == TimeOut {
            r := AdvanceScan();
          } else {
            var timer :- FreshTimer(config.scanHoldMs);
            return Report(false, timer);
          }
      }
    }

    method DualWatchElapsed() returns (r: Result<Update, ReceiveError>)
      modifies this
      ensures var step := WatchElapsed(old(Now())); Now() == step.after && r == step.result
    {
      hide InView, ChannelSetup;
      if partner.None? {
        activeTimer := None;
        return Report(false, Unchanged);
      }
      if audioOpen {
        var timer :- FreshTimer(config.scanDwellMs);
        return Report(false, timer);
      }
      var at := partner.value;
      if at >= |source| || !InView(view, source[at]) { return Err(IndexOutOfRange); }
      var previous := index;
      index, channel, partner, mode := at, source[at], Some(previous), Memory;
      var timer :- FreshTimer(config.scanDwellMs);
      return Report(true, timer);
    }

    /** Goes on round the scan; with nowhere else to go the dwell starts again. */
    method AdvanceScan() returns (r: Result<Update, ReceiveError>)
      requires index < |source|
      modifies this
      ensures var step := Advanced(old(Now())); Now() == step.after && r == step.result
    {
      hide ChannelSetup, InView, Marks.Next;
      var next := Neighbour(true, true);
      state, audioOpen := Scanning(Dwell), monitor;
      var timer :- FreshTimer(config.scanDwellMs);
      if next.Some? {
        index, channel := next.value, source[next.value];
      }
      return Report(next.Some?, timer);
    }
  }
}
