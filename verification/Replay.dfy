/** A device that answers a resent request from memory, so that a host may retry without the
    request taking effect twice. What a request does is arbitrary; when it is done is not. */
module Replay {
  import opened Wrappers

  datatype Service = DeviceInfo | RuntimeControl | Configuration | FirmwareUpdate | Diagnostics
  datatype Frame = Frame(service: Service, flags: u8, sequence: u16, command: u8, payload: seq<byte>)
  datatype ErrorCode = UnsupportedService | UnsupportedCommand | MalformedPayload | SequenceConflict {
    function Code(): byte {
      match this
      case UnsupportedService => 1
      case UnsupportedCommand => 2
      case MalformedPayload => 3
      case SequenceConflict => 10
    }
  }

  const FLAG_RESPONSE_ERROR: u8 := 3
  const COMMAND_ERROR: u8 := 0x7F

  function ErrorResponse(request: Frame, code: ErrorCode): Frame {
    Frame(request.service, FLAG_RESPONSE_ERROR, request.sequence, COMMAND_ERROR, [request.command as bv8, code.Code()])
  }

  /** How a runtime-control request reads. */
  datatype Reading = Control | UnknownCommand | Malformed

  /** What the store and the receiver make of a request: any state at all, and a response
      unless none could be built. A device without a receiver owns no control. */
  datatype Device<!S> = Device(
    handle: (S, Frame) -> (S, Option<Frame>),
    perform: (S, Frame) -> (S, Option<Frame>),
    read: Frame -> Reading,
    ownsReceiver: bool)

  predicate IsControl<S>(d: Device<S>, r: Frame) {
    d.ownsReceiver && r.flags == 0 && r.service.RuntimeControl? && d.read(r).Control?
  }

  /** What one request does when it is not a resend. */
  function Performed<S>(d: Device<S>, s: S, r: Frame): (S, Option<Frame>) {
    if IsControl(d, r) then d.perform(s, r)
    else if d.ownsReceiver && r.flags == 0 && r.service.RuntimeControl? then
      (s, Some(ErrorResponse(r, if d.read(r).UnknownCommand? then UnsupportedCommand else MalformedPayload)))
    else if r.flags != 0 then (s, Some(ErrorResponse(r, MalformedPayload)))
    else if r.service.DeviceInfo? || r.service.Configuration? then d.handle(s, r)
    else (s, Some(ErrorResponse(r, UnsupportedService)))
  }

  datatype Exchange = Exchange(request: Frame, response: Frame)

  datatype State<S> = State(inner: S, last: Option<Exchange>)

  /** The answer to a resent or conflicting sequence. */
  function Replayed(last: Option<Exchange>, r: Frame): Option<Frame> {
    if last.None? || last.value.request.sequence != r.sequence then None
    else if last.value.request == r then Some(last.value.response)
    else Some(ErrorResponse(r, SequenceConflict))
  }

  /** The cache after a response, or the lack of one. */
  function Settled(last: Option<Exchange>, r: Frame, response: Option<Frame>): Option<Exchange> {
    if response.Some? then Some(Exchange(r, response.value)) else last
  }

  /** One request, from arrival to response. */
  function Exchanged<S>(d: Device<S>, s: State<S>, r: Frame): (State<S>, Option<Frame>) {
    var replayed := Replayed(s.last, r);
    if replayed.Some? then (s, replayed)
    else
      var done := Performed(d, s.inner, r);
      (State(done.0, Settled(s.last, r, done.1)), done.1)
  }

  /** A control request handed out earlier, performed and answered now. */
  function Answered<S>(d: Device<S>, s: State<S>, r: Frame): (State<S>, Option<Frame>) {
    var done := d.perform(s.inner, r);
    (State(done.0, Settled(s.last, r, done.1)), done.1)
  }

  // ---------------------------------------------------------------- Repeats

  /** A repeat changes nothing and gets the same answer whenever the request was answered. */
  lemma RepeatIsAnswered<S>(d: Device<S>, s: State<S>, r: Frame)
    requires Exchanged(d, s, r).1.Some?
    ensures Exchanged(d, Exchanged(d, s, r).0, r) == Exchanged(d, s, r)
  {}

  /** A request that could not be answered is not remembered: its repeat is performed again. */
  lemma UnansweredIsPerformedAgain<S>(d: Device<S>, s: State<S>, r: Frame)
    requires Exchanged(d, s, r).1.None?
    ensures var after := Exchanged(d, s, r).0;
            && after == State(Performed(d, s.inner, r).0, s.last)
            && Exchanged(d, after, r).0.inner == Performed(d, Performed(d, s.inner, r).0, r).0
  {}

  function Run<S>(d: Device<S>, s: State<S>, rs: seq<Frame>): State<S>
    decreases |rs|
  {
    if rs == [] then s else Run(d, Exchanged(d, s, rs[0]).0, rs[1..])
  }

  function Answers<S>(d: Device<S>, s: State<S>, rs: seq<Frame>): (a: seq<Option<Frame>>)
    ensures |a| == |rs|
    decreases |rs|
  {
    if rs == [] then [] else [Exchanged(d, s, rs[0]).1] + Answers(d, Exchanged(d, s, rs[0]).0, rs[1..])
  }

  /** The control requests handed to the receiver. */
  function Surfaced<S>(d: Device<S>, s: State<S>, rs: seq<Frame>): seq<Frame>
    decreases |rs|
  {
    if rs == [] then []
    else (if Replayed(s.last, rs[0]).None? && IsControl(d, rs[0]) then [rs[0]] else [])
         + Surfaced(d, Exchanged(d, s, rs[0]).0, rs[1..])
  }

  /** Each element followed by its own number of further copies. */
  function Repeated<T>(s: seq<T>, extra: seq<nat>): seq<T>
    requires |s| == |extra|
    decreases |s|
  {
    if s == [] then [] else Copies(s[0], extra[0] + 1) + Repeated(s[1..], extra[1..])
  }

  function Copies<T>(x: T, n: nat): (r: seq<T>)
    ensures |r| == n && forall i :: 0 <= i < n ==> r[i] == x
  {
    seq(n, _ => x)
  }

  lemma {:induction false} RunJoins<S>(d: Device<S>, s: State<S>, a: seq<Frame>, b: seq<Frame>)
    ensures Run(d, s, a + b) == Run(d, Run(d, s, a), b)
    ensures Answers(d, s, a + b) == Answers(d, s, a) + Answers(d, Run(d, s, a), b)
    ensures Surfaced(d, s, a + b) == Surfaced(d, s, a) + Surfaced(d, Run(d, s, a), b)
    decreases |a|
  {
    hide Exchanged, Replayed, IsControl;
    if a == [] {
      assert a + b == b;
    } else {
      assert (a + b)[1..] == a[1..] + b;
      RunJoins(d, Exchanged(d, s, a[0]).0, a[1..], b);
    }
  }

  /** Repeating an answered request does nothing more, answers the same, and asks nothing
      more of the receiver. */
  lemma {:induction false} CopiesAreOne<S>(d: Device<S>, s: State<S>, r: Frame, extra: nat)
    requires Exchanged(d, s, r).1.Some?
    ensures var one, many := [r], Copies(r, extra + 1);
            && Run(d, s, many) == Run(d, s, one) == Exchanged(d, s, r).0
            && Answers(d, s, many) == Copies(Exchanged(d, s, r).1, extra + 1)
            && Surfaced(d, s, many) == Surfaced(d, s, one)
    decreases extra
  {
    var after := Exchanged(d, s, r).0;
    RepeatIsAnswered(d, s, r);
    var many := Copies(r, extra + 1);
    assert many[1..] == Copies(r, extra);
    assert [r][1..] == [];
    if extra > 0 {
      CopiesAreOne(d, after, r, extra - 1);
      assert Replayed(after.last, r).Some?;
      assert [r][0] == r;
      assert Surfaced(d, after, [r]) == Surfaced(d, after, [r][1..]);
    }
  }

  /** Retries take effect exactly once: repeating requests in place, each any number of
      times, ends in the same state with the same cached exchange, gives every copy the
      same response, and hands the receiver the same requests. */
  lemma {:induction false} RetriesTakeEffectOnce<S>(d: Device<S>, s: State<S>, rs: seq<Frame>, extra: seq<nat>)
    requires |rs| == |extra|
    requires forall i :: 0 <= i < |rs| ==> Answers(d, s, rs)[i].Some?
    ensures Run(d, s, Repeated(rs, extra)) == Run(d, s, rs)
    ensures Answers(d, s, Repeated(rs, extra)) == Repeated(Answers(d, s, rs), extra)
    ensures Surfaced(d, s, Repeated(rs, extra)) == Surfaced(d, s, rs)
    decreases |rs|
  {
    hide Exchanged, Replayed, IsControl;
    if rs != [] {
      var r, rest := rs[0], rs[1..];
      var after := Exchanged(d, s, r).0;
      assert Answers(d, s, rs)[0].Some?;
      forall i | 0 <= i < |rest| ensures Answers(d, after, rest)[i].Some? {
        assert Answers(d, s, rs)[i + 1] == Answers(d, after, rest)[i];
      }
      var many := Copies(r, extra[0] + 1);
      CopiesAreOne(d, s, r, extra[0]);
      RunJoins(d, s, many, Repeated(rest, extra[1..]));
      RetriesTakeEffectOnce(d, after, rest, extra[1..]);
      assert rs == [r] + rest;
      RunJoins(d, s, [r], rest);
      assert Answers(d, s, rs)[1..] == Answers(d, after, rest);
    }
  }

  // ---------------------------------------------------------------- Whose answer it is

  /** An error frame for a request: its service and sequence, its command, and the code. */
  predicate IsError(answer: Frame, r: Frame, code: byte) {
    && answer.service == r.service && answer.flags == 3 && answer.sequence == r.sequence
    && answer.command == 0x7F && answer.payload == [r.command as bv8, code]
  }

  /** A request is answered without being performed exactly when the last one answered has its
      number: with that answer if it is that request again, and otherwise with a conflict, which
      changes nothing. */
  lemma NumberInUseExactlyWhen<S>(d: Device<S>, s: State<S>, r: Frame)
    ensures var (after, answer) := Exchanged(d, s, r);
            if s.last.Some? && s.last.value.request.sequence == r.sequence
            then && after == s && Replayed(s.last, r) == answer && answer.Some?
                 && if s.last.value.request == r then answer.value == s.last.value.response
                    else IsError(answer.value, r, 10)
            else && Replayed(s.last, r).None? && answer == Performed(d, s.inner, r).1
                 && after.inner == Performed(d, s.inner, r).0
                 && after.last == if answer.Some? then Some(Exchange(r, answer.value)) else s.last
  {
    hide Performed;
  }

  /** A request not performed is answered with the cause, and leaves the device as it was. */
  lemma RefusalsNameTheCause<S>(d: Device<S>, s: S, r: Frame)
    ensures var (after, answer) := Performed(d, s, r);
            var control := d.ownsReceiver && r.service.RuntimeControl?;
            if r.flags == 0 && (r.service.DeviceInfo? || r.service.Configuration?)
            then (after, answer) == d.handle(s, r)
            else if r.flags == 0 && control && d.read(r).Control? then (after, answer) == d.perform(s, r)
            else && after == s && answer.Some?
                 && IsError(answer.value, r, if r.flags != 0 || (control && d.read(r).Malformed?) then 3
                                             else if control then 2 else 1)
  {}

  /** What the cache can hold after a run: the exchange it began with, or a request of the run
      with the answer its own performance gave. */
  ghost predicate IsTruth<S>(d: Device<S>, s: State<S>, rs: seq<Frame>, x: Exchange) {
    s.last == Some(x) || exists j :: IsOrigin(d, s, rs, j, x)
  }

  ghost predicate IsOrigin<S>(d: Device<S>, s: State<S>, rs: seq<Frame>, j: nat, x: Exchange) {
    j < |rs| && rs[j] == x.request && Performed(d, Run(d, s, rs[..j]).inner, rs[j]).1 == Some(x.response)
  }

  lemma RunEnds<S>(d: Device<S>, s: State<S>, rs: seq<Frame>, i: nat)
    requires i < |rs|
    ensures Run(d, s, rs[..i + 1]) == Exchanged(d, Run(d, s, rs[..i]), rs[i]).0
    ensures Answers(d, s, rs)[i] == Exchanged(d, Run(d, s, rs[..i]), rs[i]).1
  {
    hide Exchanged, IsControl, Replayed;
    var before := Run(d, s, rs[..i]);
    assert rs[..i + 1] == rs[..i] + [rs[i]];
    RunJoins(d, s, rs[..i], [rs[i]]);
    assert [rs[i]][1..] == [];
    assert Run(d, before, [rs[i]]) == Exchanged(d, before, rs[i]).0;
    assert rs == rs[..i] + rs[i..];
    RunJoins(d, s, rs[..i], rs[i..]);
    assert Answers(d, before, rs[i..])[0] == Exchanged(d, before, rs[i]).1;
  }

  lemma {:induction false} CacheIsTruth<S>(d: Device<S>, s: State<S>, rs: seq<Frame>, i: nat)
    requires i <= |rs| && Run(d, s, rs[..i]).last.Some?
    ensures IsTruth(d, s, rs, Run(d, s, rs[..i]).last.value)
    decreases i
  {
    hide Exchanged, Performed, IsTruth;
    if i == 0 {
      assert rs[..0] == [];
      StartIsTruth(d, s, rs);
    } else {
      var before := Run(d, s, rs[..i - 1]);
      RunEnds(d, s, rs, i - 1);
      NumberInUseExactlyWhen(d, before, rs[i - 1]);
      var x := Run(d, s, rs[..i]).last.value;
      if before.last == Some(x) {
        CacheIsTruth(d, s, rs, i - 1);
      } else {
        PerformedIsTruth(d, s, rs, i - 1, x);
      }
    }
  }

  lemma StartIsTruth<S>(d: Device<S>, s: State<S>, rs: seq<Frame>)
    ensures Run(d, s, []).last == s.last
    ensures s.last.Some? ==> IsTruth(d, s, rs, s.last.value)
  {}

  lemma PerformedIsTruth<S>(d: Device<S>, s: State<S>, rs: seq<Frame>, j: nat, x: Exchange)
    requires j < |rs| && rs[j] == x.request
    requires Performed(d, Run(d, s, rs[..j]).inner, rs[j]).1 == Some(x.response)
    ensures IsTruth(d, s, rs, x)
  {
    assert IsOrigin(d, s, rs, j, x);
  }

  /** Over every run of requests, retried, renumbered or clashing, no answer is another request's:
      each is what performing that very request gave, then or before, or was cached for it at the
      start, or else is a conflict of its own. */
  lemma AnswersAreTheirOwn<S>(d: Device<S>, s: State<S>, rs: seq<Frame>, i: nat)
    requires i < |rs| && Answers(d, s, rs)[i].Some?
    ensures var answer := Answers(d, s, rs)[i].value;
            IsTruth(d, s, rs[..i + 1], Exchange(rs[i], answer)) || IsError(answer, rs[i], 10)
  {
    hide Exchanged, Performed, IsTruth, Replayed;
    var before, r := Run(d, s, rs[..i]), rs[i];
    RunEnds(d, s, rs, i);
    NumberInUseExactlyWhen(d, before, r);
    var told := rs[..i + 1];
    assert told[..i] == rs[..i];
    var answer := Answers(d, s, rs)[i].value;
    if before.last.Some? && before.last.value.request.sequence == r.sequence {
      CacheIsTruth(d, s, told, i);
    } else {
      PerformedIsTruth(d, s, told, i, Exchange(r, answer));
    }
  }

  // ---------------------------------------------------------------- Against no cache at all

  /** A host's requests done once each, with no cache. */
  function Uncached<S>(d: Device<S>, s: S, rs: seq<Frame>): S
    decreases |rs|
  {
    if rs == [] then s else Uncached(d, Performed(d, s, rs[0]).0, rs[1..])
  }

  /** No request reuses the sequence of the one before it. */
  predicate FreshSequences(last: Option<Exchange>, rs: seq<Frame>)
    decreases |rs|
  {
    rs == []
    || ((last.Some? ==> last.value.request.sequence != rs[0].sequence)
        && forall i :: 1 <= i < |rs| ==> rs[i].sequence != rs[i - 1].sequence)
  }

  /** A host that numbers its requests afresh and retries each until it is answered drives
      the device exactly as if it sent each once to a device with no cache. */
  lemma {:induction false} RetriedStreamIsUncached<S>(d: Device<S>, s: State<S>, rs: seq<Frame>, extra: seq<nat>)
    requires |rs| == |extra| && FreshSequences(s.last, rs)
    requires forall i :: 0 <= i < |rs| ==> Answers(d, s, rs)[i].Some?
    ensures Run(d, s, Repeated(rs, extra)).inner == Uncached(d, s.inner, rs)
    decreases |rs|
  {
    hide Repeated;
    RetriesTakeEffectOnce(d, s, rs, extra);
    FreshRunIsUncached(d, s, rs);
  }

  lemma {:induction false} FreshRunIsUncached<S>(d: Device<S>, s: State<S>, rs: seq<Frame>)
    requires FreshSequences(s.last, rs)
    requires forall i :: 0 <= i < |rs| ==> Answers(d, s, rs)[i].Some?
    ensures Run(d, s, rs).inner == Uncached(d, s.inner, rs)
    decreases |rs|
  {
    hide Performed;
    if rs != [] {
      var after, rest := Exchanged(d, s, rs[0]).0, rs[1..];
      assert Answers(d, s, rs)[0].Some?;
      forall i | 0 <= i < |rest| ensures Answers(d, after, rest)[i].Some? {
        assert Answers(d, s, rs)[i + 1] == Answers(d, after, rest)[i];
      }
      forall i | 1 <= i < |rest| ensures rest[i].sequence != rest[i - 1].sequence {
        assert rest[i] == rs[i + 1] && rest[i - 1] == rs[i];
      }
      if rest != [] { assert rest[0] == rs[1]; }
      FreshRunIsUncached(d, after, rest);
    }
  }

  // ---------------------------------------------------------------- Between hand-out and answer

  /** A copy of one control request arrives, or the receiver's owner answers one handed out. */
  datatype Event = Arrive | Answer

  /** The device, and how many copies of the request are handed out and how many performed. */
  datatype Window<S> = Window(state: State<S>, pending: nat, performed: nat)

  function Stepped<S>(d: Device<S>, w: Window<S>, r: Frame, e: Event): Window<S> {
    match e
    case Arrive => if Replayed(w.state.last, r).Some? then w else w.(pending := w.pending + 1)
    case Answer =>
      if w.pending == 0 then w else Window(Answered(d, w.state, r).0, w.pending - 1, w.performed + 1)
  }

  function Driven<S>(d: Device<S>, w: Window<S>, r: Frame, es: seq<Event>): Window<S>
    decreases |es|
  {
    if es == [] then w else Driven(d, Stepped(d, w, r, es[0]), r, es[1..])
  }

  /** How many copies are there before the first is answered, `n` of them already. */
  function Early(es: seq<Event>, n: nat): nat
    decreases |es|
  {
    if es == [] then n
    else match es[0]
      case Arrive => Early(es[1..], n + 1)
      case Answer => if n == 0 then Early(es[1..], 0) else n
  }

  function PerformedTimes<S>(d: Device<S>, inner: S, r: Frame, k: nat): S {
    if k == 0 then inner else d.perform(PerformedTimes(d, inner, r, k - 1), r).0
  }

  /** However the copies of a control request and their answers interleave, it is performed
      once for every copy that came before the first answer, less those still handed out: so
      resends take effect again exactly when they arrive while the first is out. */
  lemma CopiesBeforeTheAnswerAllTakeEffect<S>(d: Device<S>, s: State<S>, r: Frame, es: seq<Event>)
    requires Replayed(s.last, r).None? && d.perform(s.inner, r).1.Some?
    ensures var end := Driven(d, Window(s, 0, 0), r, es);
            && end.performed + end.pending == Early(es, 0)
            && end.state.inner == PerformedTimes(d, s.inner, r, end.performed)
  {
    hide Replayed, Early;
    WaitingRun(d, s, r, es, 0);
  }

  lemma {:induction false} WaitingRun<S>(d: Device<S>, s: State<S>, r: Frame, es: seq<Event>, n: nat)
    requires Replayed(s.last, r).None? && d.perform(s.inner, r).1.Some?
    ensures var end := Driven(d, Window(s, n, 0), r, es);
            && end.performed + end.pending == Early(es, n)
            && end.state.inner == PerformedTimes(d, s.inner, r, end.performed)
    decreases |es|
  {
    if es != [] {
      match es[0]
      case Arrive => WaitingRun(d, s, r, es[1..], n + 1);
      case Answer =>
        if n == 0 {
          WaitingRun(d, s, r, es[1..], 0);
        } else {
          assert PerformedTimes(d, s.inner, r, 1) == d.perform(PerformedTimes(d, s.inner, r, 0), r).0;
          AnsweredRun(d, s.inner, Stepped(d, Window(s, n, 0), r, Answer), r, es[1..]);
        }
    }
  }

  /** A copy that overtakes the answer is performed as well, whatever the device. */
  lemma OvertakingCopyIsPerformedTwice<S>(d: Device<S>, s: State<S>, r: Frame)
    requires Replayed(s.last, r).None?
    ensures var end := Driven(d, Window(s, 0, 0), r, [Arrive, Arrive, Answer, Answer]);
            && end.performed == 2 && end.pending == 0
            && end.state.inner == d.perform(d.perform(s.inner, r).0, r).0
  {
    var es := [Arrive, Arrive, Answer, Answer];
    assert es[1..] == [Arrive, Answer, Answer];
    assert es[1..][1..] == [Answer, Answer];
    assert es[1..][1..][1..] == [Answer];
    assert es[1..][1..][1..][1..] == [];
    var w1 := Stepped(d, Window(s, 0, 0), r, Arrive);
    var w2 := Stepped(d, w1, r, Arrive);
    var w3 := Stepped(d, w2, r, Answer);
    var w4 := Stepped(d, w3, r, Answer);
    assert Driven(d, w4, r, []) == w4;
    assert Driven(d, w3, r, [Answer]) == Driven(d, w4, r, [Answer][1..]);
    assert Driven(d, w2, r, es[1..][1..]) == Driven(d, w3, r, es[1..][1..][1..]);
    assert Driven(d, w1, r, es[1..]) == Driven(d, w2, r, es[1..][1..]);
  }

  /** Once one copy has been answered every later one is a resend. */
  lemma {:induction false} AnsweredRun<S>(d: Device<S>, inner: S, w: Window<S>, r: Frame, es: seq<Event>)
    requires w.state.last.Some? && w.state.last.value.request == r
    requires w.state.inner == PerformedTimes(d, inner, r, w.performed)
    ensures var end := Driven(d, w, r, es);
            && end.performed + end.pending == w.performed + w.pending
            && end.state.inner == PerformedTimes(d, inner, r, end.performed)
    decreases |es|
  {
    if es != [] {
      AnsweredRun(d, inner, Stepped(d, w, r, es[0]), r, es[1..]);
    }
  }

  // ---------------------------------------------------------------- Mixed streams

  /** Any frame arrives, or the receiver's owner answers one of the requests handed out, in
      whatever order it likes. */
  datatype Traffic = Comes(frame: Frame) | Replies(index: nat)

  /** What is handed out and not answered yet, and what has been performed, in order. */
  datatype Desk = Desk(pending: seq<Frame>, done: seq<Frame>)

  /** The device with its desk. */
  datatype Office<S> = Office(state: State<S>, desk: Desk)

  function WithAnswered(desk: Desk, i: nat): Desk
    requires i < |desk.pending|
  {
    Desk(desk.pending[..i] + desk.pending[i + 1..], desk.done + [desk.pending[i]])
  }

  function Served<S>(d: Device<S>, w: Office<S>, h: Traffic): Office<S> {
    match h
    case Comes(f) =>
      if Replayed(w.state.last, f).Some? then w
      else if IsControl(d, f) then w.(desk := w.desk.(pending := w.desk.pending + [f]))
      else Office(Exchanged(d, w.state, f).0, w.desk.(done := w.desk.done + [f]))
    case Replies(i) =>
      if i >= |w.desk.pending| then w
      else Office(Answered(d, w.state, w.desk.pending[i]).0, WithAnswered(w.desk, i))
  }

  function ServedAll<S>(d: Device<S>, w: Office<S>, hs: seq<Traffic>): Office<S>
    decreases |hs|
  {
    if hs == [] then w else ServedAll(d, Served(d, w, hs[0]), hs[1..])
  }

  /** The request performed last. */
  function Latest(last: Option<Exchange>, done: seq<Frame>): Option<Frame> {
    if done != [] then Some(done[|done| - 1]) else if last.Some? then Some(last.value.request) else None
  }

  /** A frame is turned away if and only if the request performed last has its number. */
  predicate TurnedAway(last: Option<Exchange>, desk: Desk, f: Frame) {
    Latest(last, desk.done).Some? && Latest(last, desk.done).value.sequence == f.sequence
  }

  /** The desk alone: what becomes of it by the traffic, whatever the device does. */
  function Passed(control: Frame -> bool, last: Option<Exchange>, desk: Desk, h: Traffic): Desk {
    match h
    case Comes(f) =>
      if TurnedAway(last, desk, f) then desk
      else if control(f) then desk.(pending := desk.pending + [f]) else desk.(done := desk.done + [f])
    case Replies(i) => if i >= |desk.pending| then desk else WithAnswered(desk, i)
  }

  function PassedAll(control: Frame -> bool, last: Option<Exchange>, desk: Desk, hs: seq<Traffic>): Desk
    decreases |hs|
  {
    if hs == [] then desk else PassedAll(control, last, Passed(control, last, desk, hs[0]), hs[1..])
  }

  /** How many copies of `r` arrive and are not turned away. */
  function Admitted(control: Frame -> bool, last: Option<Exchange>, desk: Desk, hs: seq<Traffic>, r: Frame): nat
    decreases |hs|
  {
    if hs == [] then 0
    else
      (if hs[0] == Comes(r) && !TurnedAway(last, desk, r) then 1 else 0)
      + Admitted(control, last, Passed(control, last, desk, hs[0]), hs[1..], r)
  }

  /** A device that has an answer to everything. */
  ghost predicate Answering<S(!new)>(d: Device<S>) {
    forall s: S, r :: Performed(d, s, r).1.Some?
  }

  /** What holds between the device and its desk. */
  ghost predicate InOrder<S>(d: Device<S>, first: State<S>, w: Office<S>) {
    && w.state.inner == Uncached(d, first.inner, w.desk.done)
    && (forall i :: 0 <= i < |w.desk.pending| ==> IsControl(d, w.desk.pending[i]))
    && (if w.state.last.Some? then Some(w.state.last.value.request) else None) == Latest(first.last, w.desk.done)
  }

  lemma {:induction false} UncachedEnds<S>(d: Device<S>, s: S, rs: seq<Frame>, r: Frame)
    ensures Uncached(d, s, rs + [r]) == Performed(d, Uncached(d, s, rs), r).0
    decreases |rs|
  {
    hide Performed;
    if rs == [] {
      assert [r][1..] == [];
    } else {
      assert (rs + [r])[1..] == rs[1..] + [r];
      UncachedEnds(d, Performed(d, s, rs[0]).0, rs[1..], r);
    }
  }

  lemma ServedInOrder<S(!new)>(d: Device<S>, first: State<S>, w: Office<S>, h: Traffic)
    requires Answering(d) && InOrder(d, first, w)
    ensures InOrder(d, first, Served(d, w, h))
    ensures Served(d, w, h).desk == Passed((f: Frame) => IsControl(d, f), first.last, w.desk, h)
  {
    match h
    case Comes(f) =>
      UncachedEnds(d, first.inner, w.desk.done, f);
      assert Performed(d, w.state.inner, f).1.Some?;
    case Replies(i) =>
      if i < |w.desk.pending| {
        var r := w.desk.pending[i];
        assert IsControl(d, r);
        UncachedEnds(d, first.inner, w.desk.done, r);
        assert Performed(d, w.state.inner, r).1.Some?;
      }
  }

  /** Requests of every kind in one stream, with answers given in any order: what is performed,
      and in which order, depends on the traffic alone, and the device ends as one without a
      cache that performed just that. */
  lemma {:induction false} MixedStreamIsUncached<S(!new)>(d: Device<S>, first: State<S>, w: Office<S>,
                                                          hs: seq<Traffic>)
    requires Answering(d) && InOrder(d, first, w)
    ensures var end := ServedAll(d, w, hs);
            && end.desk == PassedAll((f: Frame) => IsControl(d, f), first.last, w.desk, hs)
            && end.state.inner == Uncached(d, first.inner, end.desk.done)
    decreases |hs|
  {
    hide Answering, Served, Passed;
    if hs != [] {
      ServedInOrder(d, first, w, hs[0]);
      MixedStreamIsUncached(d, first, Served(d, w, hs[0]), hs[1..]);
    }
  }

  function Times(desk: Desk, r: Frame): nat { multiset(desk.pending)[r] + multiset(desk.done)[r] }

  lemma AnsweringCounts(desk: Desk, i: nat, r: Frame)
    requires i < |desk.pending|
    ensures Times(WithAnswered(desk, i), r) == Times(desk, r)
  {
    var p := desk.pending;
    assert p == p[..i] + [p[i]] + p[i + 1..];
  }

  /** In any such stream a request is performed, or handed out still, once for every copy that
      found another number performed last: so a resend takes effect again when its first copy is
      still out, or when another request was settled in between. */
  lemma {:induction false} MixedRequestsAreCounted(control: Frame -> bool, last: Option<Exchange>, desk: Desk,
                                                   hs: seq<Traffic>, r: Frame)
    ensures Times(PassedAll(control, last, desk, hs), r)
         == Times(desk, r) + Admitted(control, last, desk, hs, r)
    decreases |hs|
  {
    hide Times, TurnedAway;
    if hs != [] {
      PassedCounts(control, last, desk, hs[0], r);
      MixedRequestsAreCounted(control, last, Passed(control, last, desk, hs[0]), hs[1..], r);
    }
  }

  lemma PassedCounts(control: Frame -> bool, last: Option<Exchange>, desk: Desk, h: Traffic, r: Frame)
    ensures Times(Passed(control, last, desk, h), r)
         == Times(desk, r) + if h == Comes(r) && !TurnedAway(last, desk, r) then 1 else 0
  {
    if h.Replies? && h.index < |desk.pending| { AnsweringCounts(desk, h.index, r); }
    hide TurnedAway;
  }

  /** A request answered between a control request's two copies makes the second one count. */
  lemma InterleavedCopyIsPerformedTwice(control: Frame -> bool, r: Frame, q: Frame)
    requires control(r) && !control(q) && q.sequence != r.sequence
    ensures var hs := [Comes(r), Replies(0), Comes(q), Comes(r), Replies(0)];
            PassedAll(control, None, Desk([], []), hs) == Desk([], [r, q, r])
  {
    var hs := [Comes(r), Replies(0), Comes(q), Comes(r), Replies(0)];
    var d1 := Desk([r], []);
    var d2 := Desk([], [r]);
    var d3 := Desk([], [r, q]);
    var d4 := Desk([r], [r, q]);
    assert Passed(control, None, Desk([], []), hs[0]) == d1;
    assert Passed(control, None, d1, hs[1]) == d2;
    assert Passed(control, None, d2, hs[2]) == d3;
    assert Passed(control, None, d3, hs[3]) == d4;
    assert Passed(control, None, d4, hs[4]) == Desk([], [r, q, r]);
    assert hs[1..] == [Replies(0), Comes(q), Comes(r), Replies(0)];
    assert hs[1..][1..] == [Comes(q), Comes(r), Replies(0)];
    assert hs[1..][1..][1..] == [Comes(r), Replies(0)];
    assert hs[1..][1..][1..][1..] == [Replies(0)];
    assert hs[1..][1..][1..][1..][1..] == [];
    var end := Desk([], [r, q, r]);
    assert PassedAll(control, None, end, []) == end;
    assert PassedAll(control, None, d4, hs[1..][1..][1..][1..]) == PassedAll(control, None, end, []);
    assert PassedAll(control, None, d3, hs[1..][1..][1..]) == PassedAll(control, None, d4, hs[1..][1..][1..][1..]);
    assert PassedAll(control, None, d2, hs[1..][1..]) == PassedAll(control, None, d3, hs[1..][1..][1..]);
    assert PassedAll(control, None, d1, hs[1..]) == PassedAll(control, None, d2, hs[1..][1..]);
  }

  // ---------------------------------------------------------------- The service

  datatype Push = Idle | Response(frame: Frame) | Pending(request: Frame)

  /** The device half of the exchange; frames arrive decoded and leave unencoded. */
  class DeviceService<S> {
    const device: Device<S>
    var inner: S
    var last: Option<Exchange>

    ghost function Now(): State<S>
      reads this
    {
      State(inner, last)
    }

    constructor (device: Device<S>, inner: S)
      ensures this.device == device && Now() == State(inner, None)
    {
      this.device, this.inner, last := device, inner, None;
    }

    /** Remembers what was answered, for the resend that may come. */
    method Settle(request: Frame, built: Option<Frame>) returns (r: Option<Frame>)
      modifies `last
      ensures r == built && last == Settled(old(last), request, built)
    {
      if built.None? { return None; }
      last := Some(Exchange(request, built.value));
      return built;
    }

    method HandleRequest(request: Frame) returns (r: Option<Frame>)
      modifies `inner
      ensures (inner, r) == Performed(device.(ownsReceiver := false), old(inner), request)
    {
      if request.flags != 0 { return Some(ErrorResponse(request, MalformedPayload)); }
      match request.service {
        case DeviceInfo =>
          var done := device.handle(inner, request);
          inner := done.0;
          return done.1;
        case Configuration =>
          var done := device.handle(inner, request);
          inner := done.0;
          return done.1;
        case _ =>
          return Some(ErrorResponse(request, UnsupportedService));
      }
    }

    /** Answers one request of a device that owns no receiver. */
    method HandleExchange(request: Frame) returns (r: Option<Frame>)
      modifies this
      ensures (Now(), r) == Exchanged(device.(ownsReceiver := false), old(Now()), request)
    {
      var replayed := Replayed(last, request);
      if replayed.Some? { return replayed; }
      var built := HandleRequest(request);
      r := Settle(request, built);
    }

    /** Answers one request, or hands a control request to the caller who owns the receiver.
        A resend is answered before it is classified. */
    method PushControl(request: Frame) returns (r: Push)
      requires device.ownsReceiver
      modifies this
      ensures r.Pending? <==> Replayed(old(last), request).None? && IsControl(device, request)
      ensures r.Pending? ==> r.request == request && Now() == old(Now())
      ensures !r.Pending? ==>
                (Now(), if r.Response? then Some(r.frame) else None) == Exchanged(device, old(Now()), request)
    {
      var replayed := Replayed(last, request);
      if replayed.Some? { return Response(replayed.value); }
      var built: Option<Frame>;
      if request.flags == 0 && request.service.RuntimeControl? {
        match device.read(request) {
          case Control => return Pending(request);
          case UnknownCommand => built := Some(ErrorResponse(request, UnsupportedCommand));
          case Malformed => built := Some(ErrorResponse(request, MalformedPayload));
        }
      } else {
        built := HandleRequest(request);
      }
      var settled := Settle(request, built);
      return if settled.Some? then Response(settled.value) else Idle;
    }

    /** Performs and answers a request handed out, whatever has arrived since. With nothing
        between, handing it out and answering it are one exchange. */
    method AnswerControl(request: Frame) returns (r: Option<Frame>)
      requires IsControl(device, request)
      modifies this
      ensures (Now(), r) == Answered(device, old(Now()), request)
      ensures Replayed(old(last), request).None? ==> (Now(), r) == Exchanged(device, old(Now()), request)
    {
      var done := device.perform(inner, request);
      inner := done.0;
      r := Settle(request, done.1);
    }
  }
}
