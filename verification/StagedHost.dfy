/** A host that programs the radio: its calls on the staged writer, one after another, and what
    becomes of them on a device that may or may not be healthy. */
module StagedHost {
  import opened Wrappers
  import opened NorImage
  import opened Eeprom
  import opened StagedImage
  import opened StagedRun
  import opened Staged

  /** What a host asks for: to stage a block, or to make what it has staged live. */
  datatype Call = Put(offset: u32, data: HostBlock) | Save

  /** An event that is how a call ended. */
  predicate Ends(call: Call, e: Event, passed: bool) {
    match call
    case Put(offset, data) =>
      if passed then e == Accepted(offset, data) else e == Refused(offset, data) || e == Failed(offset, data)
    case Save => if passed then e.Committed? else e.Interrupted?
  }

  /** The calls as `passed` reports them, in the runs that the theorems about runs speak of. */
  ghost predicate Played(l: Placed, calls: seq<Call>, passed: seq<bool>, sessions: seq<Session>, events: seq<Event>) {
    && |calls| == |passed| == |events|
    && Run(l, sessions, events)
    && forall k :: 0 <= k < |events| ==> Ends(calls[k], events[k], passed[k])
  }

  lemma PlayedGrows(l: Placed, calls: seq<Call>, passed: seq<bool>, sessions: seq<Session>, events: seq<Event>,
                    call: Call, ok: bool, e: Event, t: Session)
    requires Played(l, calls, passed, sessions, events) && Ends(call, e, ok)
    requires Step(l, sessions[|events|], e, t)
    ensures Played(l, calls + [call], passed + [ok], sessions + [t], events + [e])
  {
    hide Step, Ends;
    var all, longer := events + [e], sessions + [t];
    forall k | 0 <= k < |all| ensures Step(l, longer[k], all[k], longer[k + 1]) {
      if k < |events| { assert Step(l, sessions[k], events[k], sessions[k + 1]); }
    }
  }

  /** One call. A bus event is one in which the device let the driver down, and no other. */
  method Make(staged: Staged, eeprom: Eeprom, call: Call) returns (passed: bool, ghost e: Event)
    requires eeprom.Valid()
    modifies staged, eeprom.bus
    ensures eeprom.Valid() && Ends(call, e, passed)
    ensures Step(staged.l, old(staged.Sees(eeprom)), e, staged.Sees(eeprom))
    ensures old(eeprom.bus.faults) <= eeprom.bus.faults
    ensures e.ByBus() <==> eeprom.bus.faults != old(eeprom.bus.faults)
  {
    hide WriteAccepted, WriteRefused, WriteFailed, CommitSafe, Merged;
    match call {
      case Put(offset, data) =>
        var r := staged.Write(eeprom, offset, data);
        passed := r.Ok?;
        e := if passed then Accepted(offset, data)
             else if ByDevice(r.error) then Failed(offset, data) else Refused(offset, data);
      case Save =>
        ghost var before := eeprom.bus.trace;
        var r := staged.Commit(eeprom);
        passed := r.Ok?;
        e := if passed then Committed(before, eeprom.bus.trace) else Interrupted(before, eeprom.bus.trace);
    }
  }

  /** Any sequence of calls is a run, of which a step is a bus failure exactly when the device has
      let the driver down. So on a device that never does, every block that may be written is
      accepted, every commit passes, and the region is a flat array of bytes. */
  method Play(staged: Staged, eeprom: Eeprom, calls: seq<Call>)
    returns (passed: seq<bool>, ghost sessions: seq<Session>, ghost events: seq<Event>)
    requires eeprom.Valid()
    modifies staged, eeprom.bus
    ensures eeprom.Valid() && Played(staged.l, calls, passed, sessions, events)
    ensures sessions[0] == old(staged.Sees(eeprom)) && sessions[|events|] == staged.Sees(eeprom)
    ensures (exists e :: e in events && e.ByBus()) <==> eeprom.bus.faults != old(eeprom.bus.faults)
    ensures eeprom.bus.faults == old(eeprom.bus.faults) && Clean(staged.l, sessions[0].w, sessions[0].m) ==>
              && (forall k :: 0 <= k < |calls| ==> (passed[k] <==> Willing(staged.l, calls[k], sessions[k])))
              && (forall e :: e in events && e.Accepted? ==> IsBlock(staged.l, e.offset))
              && Overlay(staged.l, staged.written, eeprom.bus.chip.mem)
              == Replay(staged.l, Overlay(staged.l, sessions[0].w, sessions[0].m), events)
  {
    hide Step, Ends, Run, Clean, Overlay;
    passed, sessions, events := [], [staged.Sees(eeprom)], [];
    PlayedNothing(staged.l, sessions);
    var k := 0;
    while k < |calls|
      invariant 0 <= k <= |calls| && eeprom.Valid()
      invariant Played(staged.l, calls[..k], passed, sessions, events)
      invariant |sessions| == k + 1 && sessions[0] == old(staged.Sees(eeprom)) && sessions[k] == staged.Sees(eeprom)
      invariant old(eeprom.bus.faults) <= eeprom.bus.faults
      invariant (exists e :: e in events && e.ByBus()) <==> eeprom.bus.faults != old(eeprom.bus.faults)
    {
      var ok, e := Make(staged, eeprom, calls[k]);
      PlayedGrows(staged.l, calls[..k], passed, sessions, events, calls[k], ok, e, staged.Sees(eeprom));
      assert calls[..k] + [calls[k]] == calls[..k + 1];
      ByBusGrows(events, e);
      passed, sessions, events := passed + [ok], sessions + [staged.Sees(eeprom)], events + [e];
      k := k + 1;
    }
    assert calls[..k] == calls;
    if eeprom.bus.faults == old(eeprom.bus.faults) && Clean(staged.l, sessions[0].w, sessions[0].m) {
      HealthyPlay(staged.l, calls, passed, sessions, events);
    }
  }

  lemma PlayedNothing(l: Placed, sessions: seq<Session>)
    requires |sessions| == 1
    ensures Played(l, [], [], sessions, [])
  {}

  lemma ByBusGrows(events: seq<Event>, e: Event)
    ensures (exists f :: f in events + [e] && f.ByBus()) <==> e.ByBus() || exists f :: f in events && f.ByBus()
  {
    if f :| f in events && f.ByBus() { assert f in events + [e]; }
    assert e in events + [e];
  }

  /** What a healthy device does not refuse: a commit, or a block that is one and needs no bit set
      again that it has already cleared. */
  predicate Willing(l: Placed, call: Call, s: Session) {
    match call
    case Put(offset, data) => IsImage(s.m) && IsBlock(l, offset) && Permitted(l, s, offset, data)
    case Save => true
  }

  lemma HealthyPlay(l: Placed, calls: seq<Call>, passed: seq<bool>, sessions: seq<Session>, events: seq<Event>)
    requires Played(l, calls, passed, sessions, events) && IsImage(sessions[0].m)
    requires Clean(l, sessions[0].w, sessions[0].m) && forall e :: e in events ==> !e.ByBus()
    ensures forall k :: 0 <= k < |calls| ==> (passed[k] <==> Willing(l, calls[k], sessions[k]))
    ensures forall e :: e in events && e.Accepted? ==> IsBlock(l, e.offset)
    ensures var last := sessions[|events|];
            && IsImage(last.m)
            && Overlay(l, last.w, last.m) == Replay(l, Overlay(l, sessions[0].w, sessions[0].m), events)
  {
    hide Overlay, Clean, Step, Willing;
    RunIsFlatArray(l, sessions, events);
    forall k | 0 <= k < |calls| ensures passed[k] <==> Willing(l, calls[k], sessions[k]) {
      assert events[k] in events;
      assert Step(l, sessions[k], events[k], sessions[k + 1]);
      HealthyStep(l, calls[k], passed[k], sessions[k], events[k], sessions[k + 1]);
    }
  }

  lemma HealthyStep(l: Placed, call: Call, passed: bool, s: Session, e: Event, t: Session)
    requires Step(l, s, e, t) && Ends(call, e, passed) && !e.ByBus()
    ensures passed <==> Willing(l, call, s)
  {
    hide CommitEffect, Covers, Base, S, L, IsSet;
    if e.Refused? && WriteRefused(l, s, e.offset, e.data, t) { RefusedIsUnwilling(l, s, e.offset, e.data, t); }
  }

  lemma RefusedIsUnwilling(l: Placed, s: Session, offset: u32, data: HostBlock, t: Session)
    requires WriteRefused(l, s, offset, data, t)
    ensures IsImage(s.m) && !Permitted(l, s, offset, data)
  {
    hide Covers, S, L, IsSet;
  }
}
