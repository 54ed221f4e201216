/**
 Which events every poll of a run tells the operator, by history: the ACKs it read, the difference between
 what it and the poll before it saw of the vehicle, and the frames it handed over.
 */
module PollEvents {
  import opened Basics
  import opened CompanionModel
  import D = MavlinkDecoder
  import F = CompanionLinkFailsafe
  import H = SessionHistory
  import L = VehicleLog
  import P = SessionProtocol
  import Q = PollFrames
  import S = StreamSetupTiming
  import T = TelemetryStreamConfigurator
  import W = SessionWire

  // ----- what is told

  /** An ACK to this companion (component 191) or to all is told, with the stream being set up if it is about one. */
  function AckKind(ack: D.CommandAck, during: Option<nat>): seq<EventKind> {
    if ack.targetComponent in {0, 191}
    then [AckReceived(ack.command, ack.result, if ack.command == 511 then during else None, ack.sourceSystem)]
    else []
  }

  /** The stream being set up, by the marks of the set-up. */
  function During(served: Option<nat>, marks: seq<S.Mark>): Option<nat> {
    if served.None? || S.Over(marks) then None else Some(S.Accepted(marks))
  }

  /** The ACKs that the messages of a poll bring, after the log `log` and the events `events`. */
  function AckKinds(served: Option<nat>, events: seq<T.SetupEvent>, log: L.Log, messages: seq<D.Message>, now: Time)
    : seq<EventKind>
  {
    if messages == [] then []
    else
      var earlier := messages[..|messages| - 1];
      var callback := D.CallbackOf(H.LogAfter(log, earlier, now), messages[|messages| - 1], now);
      AckKinds(served, events, log, earlier, now) +
      if callback.AckCallback?
      then AckKind(callback.ack, During(served, S.Marks(events + H.AckEvents(log, earlier, now))))
      else []
  }

  /** What the last poll saw of the vehicle. */
  function ViewAfter(inputs: seq<PollInput>): Vehicle {
    if inputs == [] then Vehicle(false, None, None, None, false, None, false)
    else H.SeenAt(H.LogAfterPolls([], inputs[..|inputs| - 1]), inputs[|inputs| - 1])
  }

  /** What is told of two successive views: the link, or what changed while it was up. */
  function Differences(previous: Vehicle, v: Vehicle): seq<EventKind> {
    if previous.connected && !v.connected then [LinkLost]
    else if !previous.connected && v.connected then [LinkUp(v.systemId, v.componentId)]
    else if !v.connected then []
    else
      (if previous.metadata.None? && v.metadata.Some? then [VersionReported(v.metadata.value)] else []) +
      (if v.mode.Some? && v.mode != previous.mode then [ModeChanged(v.mode.value)] else []) +
      (if v.armed != previous.armed then [ArmedChanged(v.armed)] else [])
  }

  /** What is told of a frame: every one but a heartbeat, with whether it went out whole. */
  function Report(x: Attempt): seq<EventKind> {
    match x.request
    case CompanionHeartbeat(_) => []
    case SetInterval(interval) => [IntervalRequested(interval.stream, interval.confirmation + 1, x.sent)]
    case RequestVersion(_) => [VersionRequested(x.sent)]
    case ReadThreshold(_) => [ParameterRequested(D.BATTERY_ARMING_PARAMETER, x.sent)]
    case ReadFailsafe(_, name) => [ParameterRequested(name, x.sent)]
  }

  function Reports(frames: seq<Attempt>): seq<EventKind> {
    if frames == [] then [] else Reports(frames[..|frames| - 1]) + Report(frames[|frames| - 1])
  }

  /** Some heartbeat among the frames went out whole. */
  predicate Beaten(frames: seq<Attempt>) {
    frames != [] &&
    (Beaten(frames[..|frames| - 1]) ||
     (frames[|frames| - 1].request.CompanionHeartbeat? && frames[|frames| - 1].sent))
  }

  /** Some heartbeat went out whole on this link. */
  predicate BeatenOnLink(encode: Encoder, a: App, inputs: seq<PollInput>) {
    inputs != [] &&
    var earlier, last := inputs[..|inputs| - 1], inputs[|inputs| - 1];
    W.LinkedAfter(inputs) &&
    ((W.LinkedAfter(earlier) && BeatenOnLink(encode, a, earlier)) ||
     Beaten(W.PollAttempts(encode, Run(encode, a, earlier), last)))
  }

  /** Everything that poll `input` tells after the polls `inputs`, in order. */
  function PollKinds(encode: Encoder, a: App, inputs: seq<PollInput>, input: PollInput): seq<EventKind> {
    var log := H.LogAfterPolls([], inputs);
    AckKinds(Q.ServedAfter(inputs), H.SetupEvents([], inputs), log, input.messages, input.now) +
    Differences(ViewAfter(inputs), ViewAfter(inputs + [input])) +
    Reports(W.PollAttempts(encode, Run(encode, a, inputs), input))
  }

  // ----- the journal grows by it

  /** `events` are of `kinds`, and happened at `now`. */
  predicate Say(events: seq<LinkEvent>, kinds: seq<EventKind>, now: Time) {
    |events| == |kinds| && forall i :: 0 <= i < |events| ==> events[i].kind == kinds[i] && events[i].at == now
  }

  /** From `x` to `y` the journal grew by events of `kinds`, at `now`. */
  predicate Adds(x: Journal, y: Journal, kinds: seq<EventKind>, now: Time) {
    x.told <= y.told && Say(y.told[|x.told|..], kinds, now)
  }

  lemma AddsOn(x: Journal, y: Journal, z: Journal, first: seq<EventKind>, second: seq<EventKind>, now: Time)
    requires Adds(x, y, first, now) && Adds(y, z, second, now)
    ensures Adds(x, z, first + second, now)
  {
    assert z.told[|x.told|..] == y.told[|x.told|..] + z.told[|y.told|..];
    SayOn(y.told[|x.told|..], z.told[|y.told|..], first, second, now);
  }

  lemma SayOn(events: seq<LinkEvent>, more: seq<LinkEvent>, first: seq<EventKind>, second: seq<EventKind>, now: Time)
    requires Say(events, first, now) && Say(more, second, now)
    ensures Say(events + more, first + second, now)
  {
  }

  lemma RecordingAdds(j: Journal, kind: EventKind, now: Time)
    ensures Adds(j, Recorded(j, kind, now), [kind], now)
  {
  }

  lemma NothingAdds(j: Journal, k: Journal, now: Time)
    requires k.told == j.told
    ensures Adds(j, k, [], now)
  {
  }

  // ----- ACKs

  lemma AckAdds(j: Journal, setup: T.Setup, marks: seq<S.Mark>, ack: D.CommandAck, now: Time)
    requires S.Tells(setup, marks)
    ensures Adds(j, AckNoted(j, setup, ack, now), AckKind(ack, During(setup.vehicle, marks)), now)
  {
  }

  lemma {:induction false} MessagesAdd(a: App, messages: seq<D.Message>, now: Time, events: seq<T.SetupEvent>)
    requires a.setup == T.Run(T.START, events).setup
    ensures var b := Ingested(a, messages, now);
      Adds(a.journal, b.journal, AckKinds(a.setup.vehicle, events, a.log, messages, now), now) &&
      b.log == H.LogAfter(a.log, messages, now) && b.setup.vehicle == a.setup.vehicle &&
      b.setup == T.Run(T.START, events + H.AckEvents(a.log, messages, now)).setup
  {
    if messages == [] {
      assert events + [] == events;
    } else {
      var earlier, m := messages[..|messages| - 1], messages[|messages| - 1];
      MessagesAdd(a, earlier, now, events);
      MessageAdds(a, Ingested(a, earlier, now), m, now, events, earlier);
    }
  }

  lemma MessageAdds(a: App, b: App, m: D.Message, now: Time, events: seq<T.SetupEvent>, earlier: seq<D.Message>)
    requires b.log == H.LogAfter(a.log, earlier, now) && b.setup.vehicle == a.setup.vehicle
    requires b.setup == T.Run(T.START, events + H.AckEvents(a.log, earlier, now)).setup
    requires Adds(a.journal, b.journal, AckKinds(a.setup.vehicle, events, a.log, earlier, now), now)
    ensures var c := MessageHandled(b, m, now);
      Adds(a.journal, c.journal, AckKinds(a.setup.vehicle, events, a.log, earlier + [m], now), now) &&
      c.log == H.LogAfter(a.log, earlier + [m], now) && c.setup.vehicle == a.setup.vehicle &&
      c.setup == T.Run(T.START, events + H.AckEvents(a.log, earlier + [m], now)).setup
  {
    assert (earlier + [m])[..|earlier|] == earlier;
    var so := events + H.AckEvents(a.log, earlier, now);
    var callback := D.CallbackOf(b.log, m, now);
    S.RunTells(so);
    H.Regroup(events, H.AckEvents(a.log, earlier, now), H.AckEvent(callback, now));
    match callback
    case AckCallback(ack) =>
      T.RunAppend(T.START, so, T.Ack(ack, now));
      AckAdds(b.journal, b.setup, S.Marks(so), ack, now);
      AddsOn(a.journal, b.journal, MessageHandled(b, m, now).journal,
             AckKinds(a.setup.vehicle, events, a.log, earlier, now), AckKind(ack, During(b.setup.vehicle, S.Marks(so))),
             now);
    case _ =>
      assert so + [] == so;
      NothingAdds(b.journal, MessageHandled(b, m, now).journal, now);
      AddsOn(a.journal, b.journal, MessageHandled(b, m, now).journal,
             AckKinds(a.setup.vehicle, events, a.log, earlier, now), [], now);
  }

  // ----- views

  /** `seen` is what was kept of the view `v`. */
  predicate Keeps(seen: LastSeen, v: Vehicle) {
    seen.(heartbeatActive := false) ==
      if v.connected then LastSeen(true, v.mode, Some(v.armed), v.metadata.Some?, false)
      else LastSeen(false, None, None, false, false)
  }

  lemma DifferencesAdd(j: Journal, seen: LastSeen, previous: Vehicle, v: Vehicle, now: Time)
    requires Keeps(seen, previous)
    ensures Adds(j, VehicleNoted(j, seen, v, now), Differences(previous, v), now)
  {
    if previous.connected && v.connected {
      ChangesAdd(j, seen, previous, v, now);
    } else {
      NothingAdds(j, j, now);
      RecordingAdds(j, LinkLost, now);
      RecordingAdds(j, LinkUp(v.systemId, v.componentId), now);
    }
  }

  lemma ChangesAdd(j: Journal, seen: LastSeen, previous: Vehicle, v: Vehicle, now: Time)
    requires Keeps(seen, previous) && previous.connected && v.connected
    ensures Adds(j, ChangesNoted(j, seen, v, now), Differences(previous, v), now)
  {
    var reported := MetadataNoted(j, seen, v, now);
    var turned := ModeNoted(reported, seen, v, now);
    var version := if previous.metadata.None? && v.metadata.Some? then [VersionReported(v.metadata.value)] else [];
    var mode := if v.mode.Some? && v.mode != previous.mode then [ModeChanged(v.mode.value)] else [];
    var armed := if v.armed != previous.armed then [ArmedChanged(v.armed)] else [];
    assert Adds(j, reported, version, now);
    assert Adds(reported, turned, mode, now);
    AddsOn(j, reported, turned, version, mode, now);
    assert Adds(turned, ArmedNoted(turned, seen, v, now), armed, now);
    AddsOn(j, turned, ArmedNoted(turned, seen, v, now), version + mode, armed, now);
  }

  // ----- frames

  lemma {:induction false} ReportsOn(frames: seq<Attempt>, more: seq<Attempt>)
    ensures Reports(frames + more) == Reports(frames) + Reports(more)
    ensures Beaten(frames + more) <==> Beaten(frames) || Beaten(more)
    decreases |more|
  {
    if more == [] {
      assert frames + more == frames;
    } else {
      var front, last := H.CutLast(more);
      ReportsOn(frames, front);
      ReportsAppend(frames + front, last);
      ReportsAppend(front, last);
      H.Regroup(frames, front, [last]);
      H.Regroup(Reports(frames), Reports(front), Report(last));
    }
  }

  lemma ReportsAppend(frames: seq<Attempt>, x: Attempt)
    ensures Reports(frames + [x]) == Reports(frames) + Report(x)
    ensures Beaten(frames + [x]) <==> Beaten(frames) || (x.request.CompanionHeartbeat? && x.sent)
  {
    assert (frames + [x])[..|frames|] == frames;
  }

  /** From `x` to `y` every frame handed over was told, and nothing else. */
  ghost predicate Reported(x: App, y: App, now: Time) {
    x.attempts <= y.attempts &&
    var frames := y.attempts[|x.attempts|..];
    Adds(x.journal, y.journal, Reports(frames), now) &&
    y.seen == x.seen.(heartbeatActive := x.seen.heartbeatActive || Beaten(frames))
  }

  lemma ReportedOn(x: App, y: App, z: App, now: Time)
    requires Reported(x, y, now) && Reported(y, z, now)
    ensures Reported(x, z, now)
  {
    var first, second := y.attempts[|x.attempts|..], z.attempts[|y.attempts|..];
    assert z.attempts[|x.attempts|..] == first + second;
    ReportsOn(first, second);
    AddsOn(x.journal, y.journal, z.journal, Reports(first), Reports(second), now);
  }

  /** Handing over a frame and recording it. */
  lemma OneFrameReported(x: App, y: App, frame: Attempt, now: Time)
    requires y.attempts == x.attempts + [frame]
    requires y.seen == x.seen.(
      heartbeatActive := x.seen.heartbeatActive || (frame.request.CompanionHeartbeat? && frame.sent))
    requires Adds(x.journal, y.journal, Report(frame), now)
    ensures Reported(x, y, now)
  {
    OneReport(frame);
    assert y.attempts[|x.attempts|..] == [frame];
  }

  lemma OneReport(frame: Attempt)
    ensures Reports([frame]) == Report(frame)
    ensures Beaten([frame]) <==> frame.request.CompanionHeartbeat? && frame.sent
  {
    ReportsAppend([], frame);
    assert [] + [frame] == [frame] && [] + Report(frame) == Report(frame);
  }

  lemma NoFrameReported(x: App, y: App, now: Time)
    requires y.attempts == x.attempts && y.seen == x.seen && y.journal.told == x.journal.told
    ensures Reported(x, y, now)
  {
    assert y.attempts[|x.attempts|..] == [];
    NothingAdds(x.journal, y.journal, now);
  }

  lemma BeatReported(encode: Encoder, a: App, v: Vehicle, now: Time)
    ensures Reported(a, HeartbeatSent(encode, a, v, now), now)
  {
    var b := HeartbeatSent(encode, a, v, now);
    if now >= a.timers.heartbeat && v.connected && v.systemId.Some? {
      NothingAdds(a.journal, b.journal, now);
      OneFrameReported(a, b, b.attempts[|a.attempts|], now);
    } else {
      NoFrameReported(a, b, now);
    }
  }

  lemma SetupReported(encode: Encoder, a: App, v: Vehicle, now: Time)
    requires T.Coherent(a.setup)
    ensures Reported(a, SetupUpdated(encode, a, v, now), now)
  {
    var b := SetupUpdated(encode, a, v, now);
    var (setup, request) := T.Updated(a.setup, v.connected, v.systemId, now);
    if request.Some? {
      var frame := b.attempts[|a.attempts|];
      RecordingAdds(a.journal, IntervalRequested(setup.current, setup.attempt, frame.sent), now);
      assert request.value.stream == setup.current && request.value.confirmation + 1 == setup.attempt;
      OneFrameReported(a, b, frame, now);
    } else {
      NoFrameReported(a, b, now);
    }
  }

  lemma FailsafeReported(encode: Encoder, a: App, v: Vehicle, now: Time)
    ensures Reported(a, FailsafeRequested(encode, a, v, now), now)
  {
    var b := FailsafeRequested(encode, a, v, now);
    if b == a {
      NoFrameReported(a, b, now);
    } else {
      var frame := b.attempts[|a.attempts|];
      RecordingAdds(a.journal, ParameterRequested(F.PARAMETER_NAMES[a.timers.index], frame.sent), now);
      OneFrameReported(a, b, frame, now);
    }
  }

  lemma VersionReportedTo(encode: Encoder, a: App, v: Vehicle, now: Time)
    ensures Reported(a, VersionAsked(encode, a, v, now), now)
  {
    var b := VersionAsked(encode, a, v, now);
    if b == a {
      NoFrameReported(a, b, now);
    } else {
      var frame := b.attempts[|a.attempts|];
      RecordingAdds(a.journal, VersionRequested(frame.sent), now);
      OneFrameReported(a, b, frame, now);
    }
  }

  lemma ThresholdReported(encode: Encoder, a: App, v: Vehicle, now: Time)
    ensures Reported(a, ThresholdAsked(encode, a, v, now), now)
  {
    var b := ThresholdAsked(encode, a, v, now);
    if b == a {
      NoFrameReported(a, b, now);
    } else {
      var frame := b.attempts[|a.attempts|];
      RecordingAdds(a.journal, ParameterRequested(D.BATTERY_ARMING_PARAMETER, frame.sent), now);
      OneFrameReported(a, b, frame, now);
    }
  }

  lemma StepsReported(encode: Encoder, a: App, v: Vehicle, now: Time)
    requires T.Coherent(a.setup)
    ensures var b := SetupUpdated(encode, HeartbeatSent(encode, a, v, now), v, now);
      Reported(a, ThresholdAsked(encode, VersionAsked(encode, FailsafeRequested(encode, b, v, now), v, now), v, now),
               now)
  {
    var beaten := HeartbeatSent(encode, a, v, now);
    BeatReported(encode, a, v, now);
    assert beaten.setup == a.setup;
    var ready := SetupUpdated(encode, beaten, v, now);
    SetupReported(encode, beaten, v, now);
    ReportedOn(a, beaten, ready, now);
    var read := FailsafeRequested(encode, ready, v, now);
    FailsafeReported(encode, ready, v, now);
    ReportedOn(a, ready, read, now);
    var asked := VersionAsked(encode, read, v, now);
    VersionReportedTo(encode, read, v, now);
    ReportedOn(a, read, asked, now);
    ThresholdReported(encode, asked, v, now);
    ReportedOn(a, asked, ThresholdAsked(encode, asked, v, now), now);
  }

  lemma EntryAdds(a: App, previous: Vehicle, v: Vehicle, now: Time)
    requires Keeps(a.seen, previous)
    ensures var b := ConnectionUpdated(SessionEntered(a, v), v, now);
      Adds(a.journal, b.journal, Differences(previous, v), now) && EntryKeeps(a, b, v)
  {
    var observed := PhaseObserved(a.journal, F.Observed(a.failsafe, v.connected, v.systemId).shown);
    DifferencesAdd(observed, a.seen, previous, v, now);
    SameTold(a.journal, observed, VehicleNoted(observed, a.seen, v, now), Differences(previous, v), now);
    EntryIsKept(a, v, now);
  }

  lemma SameTold(j: Journal, observed: Journal, after: Journal, kinds: seq<EventKind>, now: Time)
    requires observed.told == j.told && Adds(observed, after, kinds, now)
    ensures Adds(j, after, kinds, now)
  {
  }

  /** Entering a poll keeps the set-up, and of the view what is needed for the next. */
  ghost predicate EntryKeeps(a: App, b: App, v: Vehicle) {
    Keeps(b.seen, v) && b.setup == a.setup && b.attempts == SessionEntered(a, v).attempts &&
    b.seen.heartbeatActive == (v.connected && a.seen.heartbeatActive)
  }

  lemma EntryIsKept(a: App, v: Vehicle, now: Time)
    ensures EntryKeeps(a, ConnectionUpdated(SessionEntered(a, v), v, now), v)
  {
  }

  /** A poll that saw `previous` before and sees `v` now tells the difference, and then its frames. */
  lemma DrivenAdds(encode: Encoder, a: App, previous: Vehicle, v: Vehicle, now: Time)
    requires T.Coherent(a.setup) && Keeps(a.seen, previous)
    ensures var b := Driven(encode, a, v, now);
            var base := SessionEntered(a, v).attempts;
      base <= b.attempts && Keeps(b.seen, v) &&
      b.seen.heartbeatActive == ((v.connected && a.seen.heartbeatActive) || Beaten(b.attempts[|base|..])) &&
      Adds(a.journal, b.journal, Differences(previous, v) + Reports(b.attempts[|base|..]), now)
  {
    var entered, b := ConnectionUpdated(SessionEntered(a, v), v, now), Driven(encode, a, v, now);
    EntryAdds(a, previous, v, now);
    StepsReported(encode, entered, v, now);
    AddsOn(a.journal, entered.journal, b.journal, Differences(previous, v),
           Reports(b.attempts[|entered.attempts|..]), now);
  }

  // ----- every poll of every run

  /** After a run, what was kept of the last view is that view, with whether a heartbeat went out on its link. */
  ghost predicate Remembers(encode: Encoder, a: App, inputs: seq<PollInput>) {
    Keeps(Run(encode, a, inputs).seen, ViewAfter(inputs)) &&
    (Run(encode, a, inputs).seen.heartbeatActive <==> BeatenOnLink(encode, a, inputs))
  }

  lemma PollAdds(encode: Encoder, start: Link, sinks: seq<Sink>, inputs: seq<PollInput>, input: PollInput)
    requires Remembers(encode, Initial(start, sinks), inputs)
    ensures var initial := Initial(start, sinks);
            var a := Run(encode, initial, inputs);
      Adds(a.journal, Polled(encode, a, input).journal, PollKinds(encode, initial, inputs, input), input.now)
  {
    var initial := Initial(start, sinks);
    var a := Run(encode, initial, inputs);
    H.RunFromProjects(encode, initial, T.START, [], inputs);
    var events, log := H.SetupEvents([], inputs), H.LogAfterPolls([], inputs);
    MessagesAdd(a, input.messages, input.now, events);
    P.RunStaysSound(encode, start, sinks, inputs);
    Q.RunStaysPunctual(encode, start, sinks, inputs);
    IngestedDrivenAdds(encode, a, inputs, input);
    var ingested := Ingested(a, input.messages, input.now);
    Q.OneMoreInput(inputs, input);
    H.Regroup(AckKinds(Q.ServedAfter(inputs), events, log, input.messages, input.now),
              Differences(ViewAfter(inputs), ViewAfter(inputs + [input])),
              Reports(W.PollAttempts(encode, a, input)));
    AddsOn(a.journal, ingested.journal, Polled(encode, a, input).journal,
           AckKinds(Q.ServedAfter(inputs), events, log, input.messages, input.now),
           Differences(ViewAfter(inputs), ViewAfter(inputs + [input])) + Reports(W.PollAttempts(encode, a, input)),
           input.now);
  }

  lemma IngestedDrivenAdds(encode: Encoder, a: App, inputs: seq<PollInput>, input: PollInput)
    requires T.Coherent(a.setup) && Keeps(a.seen, ViewAfter(inputs)) && a.log == H.LogAfterPolls([], inputs)
    ensures var ingested, b := Ingested(a, input.messages, input.now), Polled(encode, a, input);
            var frames, v := W.PollAttempts(encode, a, input), ViewAfter(inputs + [input]);
      Adds(ingested.journal, b.journal, Differences(ViewAfter(inputs), v) + Reports(frames), input.now) &&
      Keeps(b.seen, v) && b.seen.heartbeatActive == ((v.connected && a.seen.heartbeatActive) || Beaten(frames))
  {
    var ingested := Ingested(a, input.messages, input.now);
    P.IngestStaysCoherent(a, input.messages, input.now);
    W.MessagesKeepTimers(a, input.messages, input.now);
    ViewOfPoll(inputs, input);
    DrivenAdds(encode, ingested, ViewAfter(inputs), ViewAfter(inputs + [input]), input.now);
  }

  lemma ViewOfPoll(inputs: seq<PollInput>, input: PollInput)
    ensures ViewAfter(inputs + [input]) == H.SeenAt(H.LogAfterPolls([], inputs), input)
  {
    assert (inputs + [input])[..|inputs|] == inputs;
  }

  lemma OneMoreBeat(encode: Encoder, a: App, inputs: seq<PollInput>, input: PollInput)
    ensures BeatenOnLink(encode, a, inputs + [input]) <==>
      W.LinkedAfter(inputs + [input]) &&
      ((W.LinkedAfter(inputs) && BeatenOnLink(encode, a, inputs)) ||
       Beaten(W.PollAttempts(encode, Run(encode, a, inputs), input)))
  {
    assert (inputs + [input])[..|inputs|] == inputs;
  }

  lemma {:induction false} RunRemembers(encode: Encoder, start: Link, sinks: seq<Sink>, inputs: seq<PollInput>)
    ensures Remembers(encode, Initial(start, sinks), inputs)
    decreases |inputs|
  {
    if inputs != [] {
      var earlier, last := H.CutLast(inputs);
      var initial := Initial(start, sinks);
      RunRemembers(encode, start, sinks, earlier);
      H.RunFromProjects(encode, initial, T.START, [], earlier);
      P.RunStaysSound(encode, start, sinks, earlier);
      IngestedDrivenAdds(encode, Run(encode, initial, earlier), earlier, last);
      W.OneMorePoll(encode, initial, earlier, last);
      OneMoreBeat(encode, initial, earlier, last);
      ViewOfPoll(earlier, last);
      Q.OneMoreInput(earlier, last);
      Q.PollHandsOverOwed(encode, start, sinks, earlier, last);
      LinkedOnceBeaten(encode, initial, earlier);
    }
  }

  lemma LinkedOnceBeaten(encode: Encoder, a: App, inputs: seq<PollInput>)
    ensures BeatenOnLink(encode, a, inputs) ==> W.LinkedAfter(inputs)
  {
  }

  /**
   Every poll of every run tells exactly this, stamped with its time: the ACKs it read, then the link coming
   up or going down or what changed in between, then its frames, each with whether it went out whole.
   */
  lemma PollTells(encode: Encoder, start: Link, sinks: seq<Sink>, inputs: seq<PollInput>, input: PollInput)
    ensures var initial := Initial(start, sinks);
            var a := Run(encode, initial, inputs);
      Adds(a.journal, Polled(encode, a, input).journal, PollKinds(encode, initial, inputs, input), input.now)
  {
    RunRemembers(encode, start, sinks, inputs);
    PollAdds(encode, start, sinks, inputs, input);
  }

  /** After every run, a heartbeat is shown as active exactly if one went out whole since the link came up. */
  lemma HeartbeatActiveOnLink(encode: Encoder, start: Link, sinks: seq<Sink>, inputs: seq<PollInput>)
    ensures Run(encode, Initial(start, sinks), inputs).seen.heartbeatActive <==>
      BeatenOnLink(encode, Initial(start, sinks), inputs)
  {
    RunRemembers(encode, start, sinks, inputs);
  }
}
