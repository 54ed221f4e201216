/** Nothing is lost between the companion application and its observers. */
module Observation {
  import opened Basics
  import opened CompanionModel
  import D = MavlinkDecoder
  import F = CompanionLinkFailsafe
  import H = SessionHistory

  /** The events are numbered 1, 2, 3, ... */
  predicate Numbered(told: seq<LinkEvent>) {
    forall i :: 0 <= i < |told| ==> told[i].sequence == i + 1
  }

  /** The ring holds exactly the last events, at most eight of them. */
  predicate RingHolds(ring: seq<LinkEvent>, told: seq<LinkEvent>) {
    |ring| == Min(|told|, MAXIMUM_LINK_EVENTS) && ring == told[|told| - |ring|..]
  }

  /** Every attached observer was given every event and every transition, once and in order. */
  predicate AllTold(sinks: seq<Sink>, told: seq<LinkEvent>, changes: seq<Transition>) {
    forall i :: 0 <= i < |sinks| && sinks[i].Sink? ==> sinks[i].events == told && sinks[i].transitions == changes
  }

  /** The same observers are attached, slot by slot. */
  predicate SameObservers(before: seq<Sink>, after: seq<Sink>) {
    |after| == |before| && forall i :: 0 <= i < |before| ==> after[i].Sink? == before[i].Sink?
  }

  /** The transitions lead from waiting for a vehicle to `phase` without a break or a standstill. */
  predicate Chained(changes: seq<Transition>, phase: F.Phase) {
    (forall i :: 0 <= i < |changes| ==> changes[i].previous != changes[i].current.phase) &&
    (forall i :: 0 < i < |changes| ==> changes[i].previous == changes[i - 1].current.phase) &&
    (if changes == [] then phase == F.WaitingForVehicle
     else changes[0].previous == F.WaitingForVehicle && changes[|changes| - 1].current.phase == phase)
  }

  ghost predicate Faithful(j: Journal) {
    j.count == |j.told| && Numbered(j.told) && RingHolds(j.ring, j.told) &&
    AllTold(j.sinks, j.told, j.changes) && Chained(j.changes, j.previousPhase)
  }

  /** Nothing about the failsafe is pending: its phase is the one last told. */
  ghost predicate Watched(a: App) {
    Faithful(a.journal) && a.journal.previousPhase == a.failsafe.shown.phase
  }

  lemma RingAdvances(ring: seq<LinkEvent>, told: seq<LinkEvent>, e: LinkEvent)
    requires RingHolds(ring, told)
    ensures var longer := ring + [e];
      RingHolds(if |longer| > MAXIMUM_LINK_EVENTS then longer[1..] else longer, told + [e])
  {
    var longer, all := ring + [e], told + [e];
    assert longer == all[|all| - |longer|..];
    if |longer| > MAXIMUM_LINK_EVENTS {
      assert longer[1..] == all[|all| - MAXIMUM_LINK_EVENTS..];
    }
  }

  lemma AllAreTold(sinks: seq<Sink>, told: seq<LinkEvent>, changes: seq<Transition>, e: LinkEvent)
    requires AllTold(sinks, told, changes)
    ensures var after := seq(|sinks|, i requires 0 <= i < |sinks| => TellEvent(sinks[i], e));
      AllTold(after, told + [e], changes) && SameObservers(sinks, after)
  {
  }

  lemma NumberedOn(told: seq<LinkEvent>, e: LinkEvent)
    requires Numbered(told) && e.sequence == |told| + 1
    ensures Numbered(told + [e])
  {
  }

  lemma RecordingIsFaithful(j: Journal, kind: EventKind, now: Time)
    requires Faithful(j)
    ensures var r := Recorded(j, kind, now);
      Faithful(r) && r.previousPhase == j.previousPhase && r.changes == j.changes &&
      r.told == j.told + [LinkEvent(j.count + 1, now, kind)] && SameObservers(j.sinks, r.sinks)
  {
    RingAdvances(j.ring, j.told, LinkEvent(j.count + 1, now, kind));
    NumberedOn(j.told, LinkEvent(j.count + 1, now, kind));
    AllAreTold(j.sinks, j.told, j.changes, LinkEvent(j.count + 1, now, kind));
  }

  lemma ObservingIsFaithful(j: Journal, shown: F.FailsafeSnapshot)
    requires Faithful(j)
    ensures var r := PhaseObserved(j, shown);
      Faithful(r) && r.previousPhase == shown.phase && r.told == j.told &&
      SameObservers(j.sinks, r.sinks) &&
      r.changes == j.changes +
        if shown.phase == j.previousPhase then [] else [Transition(j.previousPhase, shown)]
  {
  }

  /** What one step may do to the transitions told so far: add the one that happened, if one did. */
  ghost predicate TellsChange(a: App, b: App) {
    SameObservers(a.journal.sinks, b.journal.sinks) &&
    b.journal.changes == a.journal.changes +
      (if b.failsafe.shown.phase == a.failsafe.shown.phase then []
       else [Transition(a.failsafe.shown.phase, b.failsafe.shown)])
  }

  /** Each message is followed up at once: a change of the failsafe phase is told before the next message. */
  lemma MessageIsObserved(a: App, m: D.Message, now: Time)
    requires Watched(a)
    ensures Watched(MessageHandled(a, m, now)) && TellsChange(a, MessageHandled(a, m, now))
  {
    match D.CallbackOf(a.log, m, now)
    case NoCallback =>
    case AckCallback(ack) =>
      forall kind ensures Faithful(Recorded(a.journal, kind, now)) &&
        SameObservers(a.journal.sinks, Recorded(a.journal, kind, now).sinks) &&
        Recorded(a.journal, kind, now).previousPhase == a.journal.previousPhase &&
        Recorded(a.journal, kind, now).changes == a.journal.changes {
        RecordingIsFaithful(a.journal, kind, now);
      }
    case ParameterCallback(system, component, id, value) =>
      ObservingIsFaithful(a.journal, F.Informed(a.failsafe, system, component, id, value).shown);
  }

  /** Every change of phase along the inputs of the failsafe monitor, one input at a time. */
  function Changes(inputs: seq<F.Input>): seq<Transition> {
    if inputs == [] then []
    else
      var before, after := F.Run(inputs[..|inputs| - 1]).shown, F.Run(inputs).shown;
      Changes(inputs[..|inputs| - 1]) + if after.phase == before.phase then [] else [Transition(before.phase, after)]
  }

  lemma ChangesAppend(inputs: seq<F.Input>, input: F.Input)
    ensures var before, after := F.Run(inputs).shown, F.Run(inputs + [input]).shown;
      Changes(inputs + [input]) ==
        Changes(inputs) + if after.phase == before.phase then [] else [Transition(before.phase, after)]
  {
    assert (inputs + [input])[..|inputs|] == inputs;
  }

  /** The observers of `sinks` were told everything, and each change of phase along `inputs` as one transition. */
  ghost predicate Observed(a: App, sinks: seq<Sink>, inputs: seq<F.Input>) {
    Watched(a) && SameObservers(sinks, a.journal.sinks) &&
    a.failsafe == F.Run(inputs) && a.journal.changes == Changes(inputs)
  }

  /** A step by which the failsafe monitor takes one input, or none, and which tells what that changed. */
  lemma StepIsObserved(a: App, b: App, sinks: seq<Sink>, inputs: seq<F.Input>, more: seq<F.Input>)
    requires Observed(a, sinks, inputs) && Watched(b) && TellsChange(a, b) && |more| <= 1
    requires b.failsafe == F.Run(inputs + more)
    ensures Observed(b, sinks, inputs + more)
  {
    if more == [] {
      assert inputs + more == inputs;
    } else {
      assert more == [more[0]];
      ChangesAppend(inputs, more[0]);
    }
  }

  lemma MessageMoves(a: App, m: D.Message, now: Time, inputs: seq<F.Input>)
    requires a.failsafe == F.Run(inputs)
    ensures MessageHandled(a, m, now).failsafe == F.Run(inputs + H.ParameterInput(D.CallbackOf(a.log, m, now)))
    ensures MessageHandled(a, m, now).log == D.Admit(a.log, m, now)
  {
    match D.CallbackOf(a.log, m, now)
    case ParameterCallback(system, component, id, value) =>
      H.FailsafeRunAppend(inputs, F.Parameter(system, component, id, value));
    case _ => assert inputs + [] == inputs;
  }

  lemma {:induction false} IngestIsObserved(a: App, messages: seq<D.Message>, now: Time, sinks: seq<Sink>,
                                            inputs: seq<F.Input>)
    requires Observed(a, sinks, inputs)
    ensures Observed(Ingested(a, messages, now), sinks, inputs + H.ParameterInputs(a.log, messages, now))
    ensures Ingested(a, messages, now).log == H.LogAfter(a.log, messages, now)
  {
    if messages == [] {
      assert inputs + [] == inputs;
    } else {
      var earlier, m := messages[..|messages| - 1], messages[|messages| - 1];
      IngestIsObserved(a, earlier, now, sinks, inputs);
      MessageIsObservedOn(Ingested(a, earlier, now), m, now, sinks, inputs, H.ParameterInputs(a.log, earlier, now));
    }
  }

  lemma MessageIsObservedOn(a: App, m: D.Message, now: Time, sinks: seq<Sink>, inputs: seq<F.Input>,
                            values: seq<F.Input>)
    requires Observed(a, sinks, inputs + values)
    ensures Observed(MessageHandled(a, m, now), sinks,
                     inputs + (values + H.ParameterInput(D.CallbackOf(a.log, m, now))))
    ensures MessageHandled(a, m, now).log == D.Admit(a.log, m, now)
  {
    var more := H.ParameterInput(D.CallbackOf(a.log, m, now));
    MessageIsObserved(a, m, now);
    MessageMoves(a, m, now, inputs + values);
    StepIsObserved(a, MessageHandled(a, m, now), sinks, inputs + values, more);
    H.Regroup(inputs, values, more);
  }

  /** Recording events leaves the failsafe side of the journal alone. */
  ghost predicate OnlyEvents(j: Journal, r: Journal) {
    Faithful(r) && r.previousPhase == j.previousPhase && r.changes == j.changes && j.told <= r.told &&
    SameObservers(j.sinks, r.sinks)
  }

  lemma RecordingIsOnlyEvents(j: Journal, kind: EventKind, now: Time)
    requires Faithful(j)
    ensures OnlyEvents(j, Recorded(j, kind, now))
  {
    RecordingIsFaithful(j, kind, now);
  }

  lemma EventsThenEvents(j: Journal, k: Journal, l: Journal)
    requires OnlyEvents(j, k) && OnlyEvents(k, l)
    ensures OnlyEvents(j, l)
  {
  }

  lemma ChangesAreOnlyEvents(j: Journal, seen: LastSeen, v: Vehicle, now: Time)
    requires Faithful(j)
    ensures OnlyEvents(j, ChangesNoted(j, seen, v, now))
  {
    var j1 := MetadataNoted(j, seen, v, now);
    MetadataIsOnlyEvents(j, seen, v, now);
    var j2 := ModeNoted(j1, seen, v, now);
    ModeIsOnlyEvents(j1, seen, v, now);
    ArmedIsOnlyEvents(j2, seen, v, now);
    EventsThenEvents(j, j1, j2);
    EventsThenEvents(j, j2, ArmedNoted(j2, seen, v, now));
  }

  lemma MetadataIsOnlyEvents(j: Journal, seen: LastSeen, v: Vehicle, now: Time)
    requires Faithful(j)
    ensures OnlyEvents(j, MetadataNoted(j, seen, v, now))
  {
    if v.metadata.Some? && !seen.metadata {
      RecordingIsOnlyEvents(j, VersionReported(v.metadata.value), now);
    }
  }

  lemma ModeIsOnlyEvents(j: Journal, seen: LastSeen, v: Vehicle, now: Time)
    requires Faithful(j)
    ensures OnlyEvents(j, ModeNoted(j, seen, v, now))
  {
    if v.mode.Some? && v.mode != seen.mode {
      RecordingIsOnlyEvents(j, ModeChanged(v.mode.value), now);
    }
  }

  lemma ArmedIsOnlyEvents(j: Journal, seen: LastSeen, v: Vehicle, now: Time)
    requires Faithful(j)
    ensures OnlyEvents(j, ArmedNoted(j, seen, v, now))
  {
    if seen.armed.Some? && v.armed != seen.armed.value {
      RecordingIsOnlyEvents(j, ArmedChanged(v.armed), now);
    }
  }

  lemma NotingIsFaithful(j: Journal, seen: LastSeen, v: Vehicle, now: Time)
    requires Faithful(j)
    ensures OnlyEvents(j, VehicleNoted(j, seen, v, now))
  {
    if !v.connected {
      RecordingIsOnlyEvents(j, LinkLost, now);
    } else if !seen.connected {
      RecordingIsOnlyEvents(j, LinkUp(v.systemId, v.componentId), now);
    } else {
      ChangesAreOnlyEvents(j, seen, v, now);
    }
  }

  /** A step of a poll that leaves the failsafe alone and records at most one event. */
  ghost predicate RecordsAtMostOne(a: App, b: App, now: Time) {
    b.failsafe == a.failsafe &&
    (b.journal == a.journal || exists kind :: b.journal == Recorded(a.journal, kind, now))
  }

  lemma RecordingKeepsWatch(a: App, b: App, now: Time)
    requires Watched(a) && RecordsAtMostOne(a, b, now)
    ensures Watched(b) && OnlyEvents(a.journal, b.journal)
  {
    if b.journal != a.journal {
      var kind :| b.journal == Recorded(a.journal, kind, now);
      RecordingIsFaithful(a.journal, kind, now);
    }
  }

  lemma SetupRecords(encode: Encoder, a: App, v: Vehicle, now: Time)
    ensures RecordsAtMostOne(a, HeartbeatSent(encode, a, v, now), now)
    ensures RecordsAtMostOne(a, SetupUpdated(encode, a, v, now), now)
  {
  }

  lemma RequestsRecord(encode: Encoder, a: App, v: Vehicle, now: Time)
    ensures RecordsAtMostOne(a, FailsafeRequested(encode, a, v, now), now)
    ensures RecordsAtMostOne(a, VersionAsked(encode, a, v, now), now)
    ensures RecordsAtMostOne(a, ThresholdAsked(encode, a, v, now), now)
  {
  }

  lemma DrivenIsObserved(encode: Encoder, a: App, v: Vehicle, now: Time)
    requires Watched(a)
    ensures Watched(Driven(encode, a, v, now)) && TellsChange(a, Driven(encode, a, v, now))
  {
    var entered := SessionEntered(a, v);
    var shown := F.Observed(a.failsafe, v.connected, v.systemId).shown;
    ObservingIsFaithful(a.journal, shown);
    NotingIsFaithful(PhaseObserved(a.journal, shown), a.seen, v, now);
    var connected := ConnectionUpdated(entered, v, now);
    assert Watched(connected) && TellsChange(a, connected);
    SetupRecords(encode, connected, v, now);
    var beaten := HeartbeatSent(encode, connected, v, now);
    RecordingKeepsWatch(connected, beaten, now);
    SetupRecords(encode, beaten, v, now);
    var ready := SetupUpdated(encode, beaten, v, now);
    RecordingKeepsWatch(beaten, ready, now);
    RequestsRecord(encode, ready, v, now);
    var failsafe := FailsafeRequested(encode, ready, v, now);
    RecordingKeepsWatch(ready, failsafe, now);
    RequestsRecord(encode, failsafe, v, now);
    var version := VersionAsked(encode, failsafe, v, now);
    RecordingKeepsWatch(failsafe, version, now);
    RequestsRecord(encode, version, v, now);
    RecordingKeepsWatch(version, ThresholdAsked(encode, version, v, now), now);
  }

  /** The observers attached before the first poll. */
  predicate JustAttached(sinks: seq<Sink>) {
    forall i :: 0 <= i < |sinks| && sinks[i].Sink? ==> sinks[i].events == [] && sinks[i].transitions == []
  }

  lemma PollIsObserved(encode: Encoder, a: App, input: PollInput, sinks: seq<Sink>, inputs: seq<F.Input>)
    requires Observed(a, sinks, inputs)
    ensures Observed(Polled(encode, a, input), sinks,
                     inputs + H.ParameterInputs(a.log, input.messages, input.now) +
                       [H.ObserveInput(H.SeenAt(a.log, input))])
    ensures Polled(encode, a, input).log == H.LogAfter(a.log, input.messages, input.now)
  {
    var ingested, v := Ingested(a, input.messages, input.now), H.SeenAt(a.log, input);
    IngestIsObserved(a, input.messages, input.now, sinks, inputs);
    var given := inputs + H.ParameterInputs(a.log, input.messages, input.now);
    DrivenIsObserved(encode, ingested, v, input.now);
    H.DrivenProjects(encode, ingested, v, input.now);
    H.FailsafeRunAppend(given, H.ObserveInput(v));
    StepIsObserved(ingested, Driven(encode, ingested, v, input.now), sinks, given, [H.ObserveInput(v)]);
  }

  /**
   For every run of polls: the observers attached before the first one are still attached, and every
   one of them received the link events 1, 2, ..., n exactly once and in order, the ring holds the last
   min(n, 8) of them, and the failsafe transitions received are exactly the changes of phase along every
   single parameter value and link observation of the run, an unbroken chain from waiting for a vehicle
   to the phase the failsafe is really in.
   */
  lemma {:induction false} RunIsObserved(encode: Encoder, start: Link, sinks: seq<Sink>, inputs: seq<PollInput>)
    requires JustAttached(sinks)
    ensures Observed(Run(encode, Initial(start, sinks), inputs), sinks, H.FailsafeInputs([], inputs))
    ensures Run(encode, Initial(start, sinks), inputs).log == H.LogAfterPolls([], inputs)
  {
    if inputs != [] {
      var earlier, last := inputs[..|inputs| - 1], inputs[|inputs| - 1];
      RunIsObserved(encode, start, sinks, earlier);
      PollIsObserved(encode, Run(encode, Initial(start, sinks), earlier), last, sinks, H.FailsafeInputs([], earlier));
    }
  }

  /** What each observer holds in the end. */
  lemma ObserverHoldsAll(encode: Encoder, start: Link, sinks: seq<Sink>, inputs: seq<PollInput>, i: nat)
    requires JustAttached(sinks) && i < |sinks| && sinks[i].Sink?
    ensures var j := Run(encode, Initial(start, sinks), inputs).journal;
      i < |j.sinks| && j.sinks[i] == Sink(j.told, Changes(H.FailsafeInputs([], inputs)))
  {
    RunIsObserved(encode, start, sinks, inputs);
  }

  // ----- partial writes

  /** A piece of a frame, and then an honest write of the rest, is an honest write of the frame. */
  lemma GoesOnHonestly(wire: seq<bv8>, frame: seq<bv8>, count: nat, after: seq<bv8>)
    requires count <= |frame| && var middle := wire + frame[..count];
      middle <= after && after[|middle|..] <= frame[count..]
    ensures wire <= after && after[|wire|..] <= frame
    ensures after == wire + frame[..count] + frame[count..] <==> after == wire + frame
  {
    var middle := wire + frame[..count];
    assert after[|wire|..] == frame[..count] + after[|middle|..];
    assert frame == frame[..count] + frame[count..];
    assert wire + frame[..count] + frame[count..] == wire + frame;
  }

  /** A frame counts as sent exactly if all of it is on the wire; otherwise a proper prefix is. */
  lemma {:induction false} WriteIsHonest(link: Link, frame: seq<bv8>)
    ensures var (next, sent) := Written(link, frame);
      link.wire <= next.wire &&
      next.wire[|link.wire|..] <= frame &&
      (sent <==> next.wire == link.wire + frame)
    decreases |frame|
  {
    if frame != [] && link.replies != [] {
      var count := Min(link.replies[0], |frame|);
      if count > 0 {
        var middle := Link(link.replies[1..], link.wire + frame[..count]);
        WriteIsHonest(middle, frame[count..]);
        GoesOnHonestly(link.wire, frame, count, Written(middle, frame[count..]).0.wire);
      }
    }
  }

  /** How many bytes the transport accepts before it refuses: the replies up to the first 0, or all of them. */
  function Accepted(replies: seq<nat>): nat {
    if replies == [] || replies[0] == 0 then 0 else replies[0] + Accepted(replies[1..])
  }

  /** A frame is sent exactly if the transport accepts that many bytes; otherwise all it accepts is written. */
  lemma {:induction false} WriteGoesAsFarAsAccepted(link: Link, frame: seq<bv8>)
    ensures var (next, sent) := Written(link, frame);
      (sent <==> Accepted(link.replies) >= |frame|) &&
      |next.wire| == |link.wire| + Min(Accepted(link.replies), |frame|)
    decreases |frame|
  {
    if frame != [] && link.replies != [] {
      var count := Min(link.replies[0], |frame|);
      if count > 0 {
        WriteGoesAsFarAsAccepted(Link(link.replies[1..], link.wire + frame[..count]), frame[count..]);
      }
    }
  }
}
