/** What a run of inputs says of the controller it leaves: when audio is open, when a held scan
    moves on, and which of two watched channels is selected. */
module ReceiveHistory {
  import opened Wrappers
  import opened ReceiveControl

  /** The controller after the first `k` inputs. */
  function At(c: Control, inputs: seq<Input>, k: nat): (d: Control)
    requires Good(c) && k <= |inputs|
    ensures Good(d)
  {
    if k == 0 then c
    else
      var before := At(c, inputs, k - 1);
      InputKeepsGood(before, inputs[k - 1]);
      After(before, inputs[k - 1]).after
  }

  // ---------------------------------------------------------------- Audio

  predicate Selecting(input: Input) {
    || input.SetView? || input.Select? || input.SelectVisible? || input.SelectCalling? || input.SelectNext?
    || input.SelectPrevious?
  }

  predicate IsBusy(input: Input) { input.Observe? && input.observation.Busy() }

  /** The inputs that decide the audio afresh: an observation, and whatever tunes or moves a
      scan, even a move that then finds no token. */
  predicate Settles(c: Control, input: Input) {
    match input
    case Observe(_) => true
    case SkipQuiet => c.state == Scanning(Dwell)
    case TimerElapsed(token) =>
      c.activeTimer == Some(token) && c.state.Scanning? && (c.state.phase.Dwell? || c.config.scanResume.TimeOut?)
    case SetMonitor(_) => false
    case SetDualWatch(_) => false
    case StartScanning => false
    case StopScanning => false
    case RestartDwell => false
    case EnterVfo => c.state.Idle?
    case EnterMemory => c.state.Idle?
    case TuneTo(_) => c.mode == Vfo
    case Tune(_) => c.index < |c.source| && After(c, input).result.Ok?
    case _ => c.index < |c.source| && After(c, input).result.Ok?
  }

  lemma TuningAudio(c: Control, input: Input)
    requires Good(c) && (input.EnterVfo? || input.EnterMemory? || input.Tune? || input.TuneTo? || input.SetMonitor?)
    ensures AudioIs(c, input)
  {
    hide Activated, InView, Validate, ChannelSetup;
  }

  lemma SelectedAudio(c: Control, index: nat)
    ensures var step := Selected(c, index);
            && step.after.monitor == c.monitor
            && step.after.audioOpen == if step.result.Ok? then c.monitor else c.audioOpen
  {
    hide Activated, InView;
  }

  lemma SelectingAudio(c: Control, input: Input)
    requires Good(c)
    requires Selecting(input)
    ensures AudioIs(c, input)
  {
    forall index: nat ensures AudioOf(c, Selected(c, index)) { SelectedAudio(c, index); }
    if input.SetView? {
      var d := c.(view := input.view, partner := None);
      forall index: nat ensures AudioOf(d, Selected(d, index)) { SelectedAudio(d, index); }
    }
    hide Selected, Marks.Next, Marks.Nth, InView;
  }

  predicate AudioOf(c: Control, step: Step) {
    && step.after.monitor == c.monitor
    && step.after.audioOpen == if step.result.Ok? then c.monitor else c.audioOpen
  }

  lemma ScanningAudio(c: Control, input: Input)
    requires Good(c)
    requires
      || input.SkipQuiet? || input.RestartDwell? || input.StartScanning? || input.StopScanning?
      || input.SetDualWatch?
    ensures AudioIs(c, input)
  {
    hide Activated, InView, Validate, Marks.Next;
  }

  lemma ObservedAudio(c: Control, input: Input)
    requires Good(c) && input.Observe?
    ensures AudioIs(c, input)
  {
    hide Activated, InView, Validate, Marks.Next;
  }

  lemma ElapsedAudio(c: Control, input: Input)
    requires Good(c) && input.TimerElapsed?
    ensures AudioIs(c, input)
  {
    hide Activated, InView, Validate, Marks.Next;
  }

  /** What an input makes of the audio and the monitor. */
  predicate AudioIs(c: Control, input: Input)
    requires c.index < |c.source|
  {
    var d := After(c, input).after;
    && d.monitor == (if input.SetMonitor? then input.monitor else c.monitor)
    && d.audioOpen == if Settles(c, input) then c.monitor || IsBusy(input)
                      else c.audioOpen || (input.SetMonitor? && input.monitor)
  }

  lemma InputAudio(c: Control, input: Input)
    requires Good(c)
    ensures AudioIs(c, input)
  {
    hide After, AudioIs, Good, Settles;
    match input
    case Observe(_) => ObservedAudio(c, input);
    case TimerElapsed(_) => ElapsedAudio(c, input);
    case SkipQuiet => ScanningAudio(c, input);
    case RestartDwell => ScanningAudio(c, input);
    case StartScanning => ScanningAudio(c, input);
    case StopScanning => ScanningAudio(c, input);
    case SetDualWatch(_) => ScanningAudio(c, input);
    case EnterVfo => TuningAudio(c, input);
    case EnterMemory => TuningAudio(c, input);
    case Tune(_) => TuningAudio(c, input);
    case TuneTo(_) => TuningAudio(c, input);
    case SetMonitor(_) => TuningAudio(c, input);
    case _ => SelectingAudio(c, input);
  }

  lemma SettingMonitorSettlesNothing(c: Control, input: Input)
    ensures Settles(c, input) ==> !input.SetMonitor?
  {
    hide After;
  }

  /** How many inputs there were up to the last that decided the audio. */
  function Settled(c: Control, inputs: seq<Input>, n: nat): (b: nat)
    requires Good(c) && n <= |inputs|
    ensures b <= n
  {
    if n == 0 then 0 else if Settles(At(c, inputs, n - 1), inputs[n - 1]) then n else Settled(c, inputs, n - 1)
  }

  /** The monitor was on before the input at some place from `b` to `n`. */
  predicate Monitored(c: Control, inputs: seq<Input>, b: nat, n: nat)
    requires Good(c) && n <= |inputs|
  {
    exists k :: b <= k <= n && At(c, inputs, k).monitor
  }

  lemma MonitoredGrows(c: Control, inputs: seq<Input>, b: nat, n: nat)
    requires Good(c) && n <= |inputs| && b <= n
    ensures Monitored(c, inputs, b, n) <==>
              At(c, inputs, n).monitor || (b < n && Monitored(c, inputs, b, n - 1))
  {
    hide At;
    if At(c, inputs, n).monitor { assert b <= n <= n && At(c, inputs, n).monitor; }
  }

  /** Audio is open after a run if and only if, counting from the last observation or retune,
      the channel observed was busy or the monitor was on at some point since: so switching the
      monitor off leaves open what it opened until the next of them. */
  lemma {:induction false} AudioIsOpenExactlyWhen(c: Control, inputs: seq<Input>, n: nat)
    requires Good(c) && (c.monitor ==> c.audioOpen) && n <= |inputs|
    ensures var b := Settled(c, inputs, n);
            At(c, inputs, n).audioOpen <==>
              (if b == 0 then c.audioOpen else IsBusy(inputs[b - 1])) || Monitored(c, inputs, b, n)
    ensures At(c, inputs, n).monitor ==> At(c, inputs, n).audioOpen
    decreases n
  {
    hide After, Settles, Good, Monitored, IsBusy;
    MonitoredGrows(c, inputs, Settled(c, inputs, n), n);
    if n > 0 {
      AudioIsOpenExactlyWhen(c, inputs, n - 1);
      InputAudio(At(c, inputs, n - 1), inputs[n - 1]);
      SettingMonitorSettlesNothing(At(c, inputs, n - 1), inputs[n - 1]);
      SettledNothing(inputs[n - 1]);
    }
  }

  lemma SettledNothing(input: Input)
    ensures input.SetMonitor? ==> !IsBusy(input)
  {}

  // ---------------------------------------------------------------- A held scan

  /** What moves a held scan on, by the rule it resumes under. */
  predicate MovesOn(c: Control, input: Input) {
    match c.config.scanResume
    case TimeOut => input.TimerElapsed? && c.activeTimer == Some(input.token)
    case Carrier => input.Observe? && !input.observation.Busy()
    case Stop => false
  }

  /** What ends it: stopping it, finding a busy channel under the rule that stops there, or
      selecting a channel. */
  predicate Ends(c: Control, input: Input)
    requires c.index < |c.source|
  {
    || input.StopScanning?
    || (IsBusy(input) && c.config.scanResume.Stop?)
    || (Selecting(input) && After(c, input).result.Ok?)
  }

  lemma SelectedEnds(c: Control, index: nat)
    ensures var step := Selected(c, index); if step.result.Ok? then step.after.state.Idle? else step.after == c
  {
    hide Activated, InView;
  }

  lemma ScanningBySelecting(c: Control, input: Input)
    requires Good(c) && c.state.Scanning?
    requires Selecting(input)
    ensures var step := After(c, input); if step.result.Ok? then step.after.state.Idle? else step.after == c
  {
    if input.SetView? {
      RefusedViewChangesNothing(c, input);
    }
    forall index: nat ensures SelectedLeaves(c, index) { SelectedEnds(c, index); }
    if input.SetView? {
      var d := c.(view := input.view, partner := None);
      forall index: nat ensures SelectedLeaves(d, index) { SelectedEnds(d, index); }
    }
    hide Selected, Marks.Next, Marks.Nth, InView;
  }

  predicate SelectedLeaves(c: Control, index: nat) {
    var step := Selected(c, index); if step.result.Ok? then step.after.state.Idle? else step.after == c
  }

  lemma RefusedViewChangesNothing(c: Control, input: Input)
    requires Good(c) && input.SetView?
    ensures After(c, input).result.Err? ==> After(c, input).after == c
  {
    if After(c, input).result.Err? { FailureChangesNothingExactlyWhen(c, input); TokensIncrease(c, input); }
    hide After;
  }

  lemma HeldByObserving(c: Control, input: Input)
    requires Good(c) && c.state == Scanning(Hold) && input.Observe?
    ensures HeldAs(c, input)
  {
    hide Activated, InView, Validate, ChannelSetup, Marks.Next, Eligible;
  }

  lemma HeldByExpiry(c: Control, input: Input)
    requires Good(c) && c.state == Scanning(Hold) && input.TimerElapsed?
    ensures HeldAs(c, input)
  {
    hide Activated, InView, Validate, ChannelSetup, Marks.Next, Eligible;
  }

  lemma HeldByOthers(c: Control, input: Input)
    requires Good(c) && c.state == Scanning(Hold) && !Selecting(input) && !input.Observe? && !input.TimerElapsed?
    ensures HeldAs(c, input)
  {
    hide Activated, InView, Validate, ChannelSetup, Marks.Next, Eligible;
  }

  predicate HeldAs(c: Control, input: Input)
    requires c.index < |c.source|
  {
    var d := After(c, input).after;
    && (d.state == Scanning(Dwell) <==> MovesOn(c, input))
    && (d.state.Idle? <==> Ends(c, input))
    && (d.state == Scanning(Hold) ==> d.index == c.index && d.channel == c.channel)
    && (d.state == Scanning(Dwell) ==> d.index == MoveTarget(c))
  }

  /** Where a move lands: the next channel a scan may land on, or nowhere new without one or
      without a token left. */
  function MoveTarget(c: Control): nat
    requires c.index < |c.source|
  {
    var next := Marks.Next(Eligible(c.source, c.view, true), c.index, true);
    if next.Some? && c.nextToken < U32_MAX then next.value else c.index
  }

  /** A held scan moves on exactly when its resume rule says, and then to the next channel in
      turn; it ends exactly when it is stopped or a channel is selected, and otherwise holds the
      same channel. */
  lemma HeldScanLeavesExactlyWhen(c: Control, input: Input)
    requires Good(c) && c.state == Scanning(Hold)
    ensures HeldAs(c, input)
  {
    hide After, Good, MoveTarget;
    if Selecting(input) {
      ScanningBySelecting(c, input);
    } else if input.Observe? {
      HeldByObserving(c, input);
    } else if input.TimerElapsed? {
      HeldByExpiry(c, input);
    } else {
      HeldByOthers(c, input);
    }
  }

  /** What becomes of a dwelling scan: a busy channel holds it, unless the rule stops there or
      no token is left, and only a skip or its own timer moves it. */
  predicate DwellsAs(c: Control, input: Input)
    requires c.index < |c.source|
  {
    var d := After(c, input).after;
    && (d.state == Scanning(Hold) <==> IsBusy(input) && !c.config.scanResume.Stop? && c.nextToken < U32_MAX)
    && (d.state.Idle? <==> Ends(c, input))
    && (d.state == Scanning(Dwell) ==>
          d.index == if input.SkipQuiet? || (input.TimerElapsed? && c.activeTimer == Some(input.token))
                     then MoveTarget(c) else c.index)
    && (d.state == Scanning(Hold) ==> d.index == c.index && d.channel == c.channel)
  }

  lemma DwellsByEvents(c: Control, input: Input)
    requires Good(c) && c.state == Scanning(Dwell) && (input.Observe? || input.TimerElapsed?)
    ensures DwellsAs(c, input)
  {
    hide Activated, InView, Validate, ChannelSetup, Marks.Next, Eligible;
  }

  lemma DwellsByOthers(c: Control, input: Input)
    requires Good(c) && c.state == Scanning(Dwell) && !Selecting(input) && !input.Observe? && !input.TimerElapsed?
    ensures DwellsAs(c, input)
  {
    hide Activated, InView, Validate, ChannelSetup, Marks.Next, Eligible;
  }

  /** A dwelling scan holds, moves and ends exactly when these say. */
  lemma DwellingScanLeavesExactlyWhen(c: Control, input: Input)
    requires Good(c) && c.state == Scanning(Dwell)
    ensures DwellsAs(c, input)
  {
    hide After, Good, MoveTarget;
    if Selecting(input) {
      ScanningBySelecting(c, input);
    } else if input.Observe? || input.TimerElapsed? {
      DwellsByEvents(c, input);
    } else {
      DwellsByOthers(c, input);
    }
  }

  /** Over a run in which nothing moves it on and nothing ends it, a held scan stays on its
      channel. */
  lemma {:induction false} HeldScanStays(c: Control, inputs: seq<Input>, n: nat)
    requires Good(c) && c.state == Scanning(Hold) && n <= |inputs|
    requires forall k :: 0 <= k < n ==> !MovesOn(At(c, inputs, k), inputs[k]) && !Ends(At(c, inputs, k), inputs[k])
    ensures var d := At(c, inputs, n);
            d.state == Scanning(Hold) && d.index == c.index && d.channel == c.channel
    decreases n
  {
    hide After, Good, MovesOn, Ends;
    if n > 0 {
      HeldScanStays(c, inputs, n - 1);
      HeldScanLeavesExactlyWhen(At(c, inputs, n - 1), inputs[n - 1]);
      var d := At(c, inputs, n);
      assert d.state == Scanning(Hold) || d.state == Scanning(Dwell) || d.state.Idle? by { Phases(d.state); }
    }
  }

  lemma Phases(s: ReceiveState)
    ensures s == Scanning(Hold) || s == Scanning(Dwell) || s.Idle?
  {
    if s.Scanning? {
      match s.phase
      case Dwell =>
      case Hold =>
    }
  }

  // ---------------------------------------------------------------- Going round

  /** What moves a scan, held or dwelling. */
  predicate Advances(c: Control, input: Input) {
    && c.state.Scanning?
    && if c.state.phase.Hold? then MovesOn(c, input)
       else input.SkipQuiet? || (input.TimerElapsed? && c.activeTimer == Some(input.token))
  }

  /** How many of the first `n` inputs moved the scan. */
  function MoveCount(c: Control, inputs: seq<Input>, n: nat): (m: nat)
    requires Good(c) && n <= |inputs|
    ensures m <= n
  {
    if n == 0 then 0 else MoveCount(c, inputs, n - 1) + if Advances(At(c, inputs, n - 1), inputs[n - 1]) then 1 else 0
  }

  lemma OthersKeepView(c: Control, input: Input)
    requires Good(c) && !Selecting(input)
    ensures After(c, input).after.view == c.view
  {
    hide Activated, InView, Validate, ChannelSetup, Marks.Next, Eligible;
  }

  /** One input of a scan that goes on: it moves to the next channel in turn, or stays. */
  lemma ScanStep(c: Control, input: Input)
    requires Good(c) && c.state.Scanning? && c.nextToken < U32_MAX && After(c, input).after.state.Scanning?
    ensures var d := After(c, input).after;
            && d.view == c.view && d.source == c.source
            && d.index == if Advances(c, input) then MoveTarget(c) else c.index
  {
    hide After, Good, MoveTarget;
    IsEligible(c);
    InputKeepsGood(c, input);
    var d := After(c, input).after;
    Phases(c.state);
    Phases(d.state);
    if Selecting(input) { ScanningBySelecting(c, input); } else { OthersKeepView(c, input); }
    if c.state == Scanning(Hold) {
      HeldScanLeavesExactlyWhen(c, input);
    } else {
      DwellingScanLeavesExactlyWhen(c, input);
    }
  }

  /** A scan that goes on, with tokens left. */
  ghost predicate ScansOn(c: Control, inputs: seq<Input>, n: nat)
    requires Good(c) && n <= |inputs|
  {
    forall k :: 0 <= k <= n ==> At(c, inputs, k).state.Scanning? && (k < n ==> At(c, inputs, k).nextToken < U32_MAX)
  }

  /** Over any run of inputs through which a scan goes on, holds and restarts included, it is on
      the channel that its number of moves takes it to in turn. */
  lemma {:induction false} ScanGoesRound(c: Control, inputs: seq<Input>, n: nat)
    requires Good(c) && n <= |inputs| && ScansOn(c, inputs, n) && !c.channel.IsScanSkipped()
    ensures var d := At(c, inputs, n);
            && d.view == c.view && d.source == c.source
            && |Eligible(c.source, c.view, true)| == |c.source| && Eligible(c.source, c.view, true)[c.index]
            && d.index == Marks.Turn(Eligible(c.source, c.view, true), c.index, MoveCount(c, inputs, n))
    decreases n
  {
    hide After, Good, Eligible, Advances, Marks.Next;
    var marks := Eligible(c.source, c.view, true);
    IsEligible(c);
    if n > 0 {
      ScanGoesRound(c, inputs, n - 1);
      var before := At(c, inputs, n - 1);
      assert before.state.Scanning? && before.nextToken < U32_MAX && At(c, inputs, n).state.Scanning?;
      ScanStep(before, inputs[n - 1]);
      Marks.NextRank(marks, before.index, true);
    }
  }

  lemma {:induction false} CountsEvery(c: Control, inputs: seq<Input>, n: nat, j: nat)
    requires Good(c) && n <= |inputs| && j <= MoveCount(c, inputs, n)
    ensures exists k :: 0 <= k <= n && MoveCount(c, inputs, k) == j
    decreases n
  {
    hide Advances, At, Good, After;
    if j == MoveCount(c, inputs, n) {
      assert 0 <= n <= n && MoveCount(c, inputs, n) == j;
    } else {
      CountsEvery(c, inputs, n - 1, j);
    }
  }

  /** A scan that has moved as often as there are channels it may land on has been on every one of
      them, whatever else has happened meanwhile. */
  lemma EveryChannelIsVisited(c: Control, inputs: seq<Input>, n: nat, target: nat)
    requires Good(c) && n <= |inputs| && ScansOn(c, inputs, n) && !c.channel.IsScanSkipped()
    requires target < |c.source| && Eligible(c.source, c.view, true)[target]
    requires MoveCount(c, inputs, n) >= Marks.Total(Eligible(c.source, c.view, true))
    ensures exists k :: 0 <= k <= n && At(c, inputs, k).index == target
  {
    hide After, Good, Eligible, Advances, Marks.Next, MoveCount, At;
    var marks := Eligible(c.source, c.view, true);
    IsEligible(c);
    Marks.TurnsVisitEachOnce(marks, c.index, target);
    var j :| 0 <= j < Marks.Total(marks) && Marks.Turn(marks, c.index, j) == target;
    CountsEvery(c, inputs, n, j);
    var k :| 0 <= k <= n && MoveCount(c, inputs, k) == j;
    assert ScansOn(c, inputs, k);
    ScanGoesRound(c, inputs, k);
    assert At(c, inputs, k).index == target;
  }

  // ---------------------------------------------------------------- Dual watch

  /** A watch on another channel of the view, with the audio closed and its timer running. */
  predicate Watching(c: Control, partner: u16) {
    && Good(c) && c.state.Idle? && c.partner == Some(partner) && !c.audioOpen && c.activeTimer.Some?
    && partner < |c.source| && InView(c.view, c.source[partner])
  }

  /** An expiry of the watch swaps the channel selected with the one watched; with the audio
      open it stays and renews the timer. */
  lemma WatchSwaps(c: Control, partner: u16)
    requires Good(c) && c.state.Idle? && c.partner == Some(partner) && c.activeTimer.Some? && c.nextToken < U32_MAX
    requires partner < |c.source| && InView(c.view, c.source[partner])
    ensures var d := After(c, TimerElapsed(c.activeTimer.value)).after;
            && d.activeTimer == Some(c.nextToken) && d.nextToken == c.nextToken + 1
            && d.audioOpen == c.audioOpen && d.view == c.view && d.source == c.source && d.state.Idle?
            && if c.audioOpen then d.index == c.index && d.partner == Some(partner)
               else && d.index == partner && d.channel == c.source[partner]
                    && d.partner == Some(c.index) && d.mode == Memory
  {
    hide Activated, Validate;
  }

  function Expired(c: Control, k: nat): (d: Control)
    requires Good(c)
    ensures Good(d)
  {
    if k == 0 then c
    else
      var before := Expired(c, k - 1);
      if before.activeTimer.None? then before
      else
        InputKeepsGood(before, TimerElapsed(before.activeTimer.value));
        After(before, TimerElapsed(before.activeTimer.value)).after
  }

  /** While nothing opens the audio, the watch goes back and forth between the two channels. */
  lemma {:induction false} WatchAlternates(c: Control, partner: u16, k: nat)
    requires Watching(c, partner) && c.nextToken + k <= U32_MAX
    ensures var d := Expired(c, k);
            && d.nextToken == c.nextToken + k && d.view == c.view && d.source == c.source
            && if k % 2 == 0 then Watching(d, partner) && d.index == c.index
               else Watching(d, c.index) && d.index == partner && d.channel == c.source[partner]
    decreases k
  {
    hide After, InView;
    if k > 0 {
      WatchAlternates(c, partner, k - 1);
      var before := Expired(c, k - 1);
      WatchSwaps(before, if k % 2 == 1 then partner else c.index);
    }
  }
}
