/**
 What a run of polls does to each component, told by the messages and times alone: the log is that of
 all messages, and the stream set-up and the failsafe monitor are runs of their own protocols over the
 events the polls induce. The theorems about those protocols so become theorems about runs of polls.
 */
module SessionHistory {
  import opened Basics
  import opened CompanionModel
  import opened VehicleLog
  import D = MavlinkDecoder
  import F = CompanionLinkFailsafe
  import P = SessionProtocol
  import T = TelemetryStreamConfigurator

  // ----- induced events

  /** The messages of a poll, each received at the time of the poll. */
  function Arrived(messages: seq<D.Message>, now: Time): seq<D.Received> {
    if messages == [] then []
    else Arrived(messages[..|messages| - 1], now) + [D.Received(messages[|messages| - 1], now)]
  }

  /** All messages of a run of polls. */
  function Trace(inputs: seq<PollInput>): seq<D.Received> {
    if inputs == [] then []
    else Trace(inputs[..|inputs| - 1]) + Arrived(inputs[|inputs| - 1].messages, inputs[|inputs| - 1].now)
  }

  function LogAfter(log: Log, messages: seq<D.Message>, now: Time): Log {
    if messages == [] then log
    else D.Admit(LogAfter(log, messages[..|messages| - 1], now), messages[|messages| - 1], now)
  }

  function LogAfterPolls(log: Log, inputs: seq<PollInput>): Log {
    if inputs == [] then log
    else LogAfter(LogAfterPolls(log, inputs[..|inputs| - 1]), inputs[|inputs| - 1].messages, inputs[|inputs| - 1].now)
  }

  function AckEvent(callback: D.Callback, now: Time): seq<T.SetupEvent> {
    if callback.AckCallback? then [T.Ack(callback.ack, now)] else []
  }

  function ParameterInput(callback: D.Callback): seq<F.Input> {
    if callback.ParameterCallback?
    then [F.Parameter(callback.sourceSystem, callback.sourceComponent, callback.id, callback.value)] else []
  }

  /** The ACKs that the messages of a poll bring. */
  function AckEvents(log: Log, messages: seq<D.Message>, now: Time): seq<T.SetupEvent> {
    if messages == [] then []
    else
      var earlier := messages[..|messages| - 1];
      AckEvents(log, earlier, now) +
      AckEvent(D.CallbackOf(LogAfter(log, earlier, now), messages[|messages| - 1], now), now)
  }

  /** The parameter values that the messages of a poll bring. */
  function ParameterInputs(log: Log, messages: seq<D.Message>, now: Time): seq<F.Input> {
    if messages == [] then []
    else
      var earlier := messages[..|messages| - 1];
      ParameterInputs(log, earlier, now) +
      ParameterInput(D.CallbackOf(LogAfter(log, earlier, now), messages[|messages| - 1], now))
  }

  function UpdateEvent(v: Vehicle, now: Time): T.SetupEvent {
    T.Update(v.connected, v.systemId, now)
  }

  function ObserveInput(v: Vehicle): F.Input {
    F.Observe(v.connected, v.systemId)
  }

  /** The vehicle a poll sees, once its messages are in. */
  function SeenAt(log: Log, input: PollInput): Vehicle {
    VehicleAt(LogAfter(log, input.messages, input.now), input.now)
  }

  /** What the polls mean to the stream set-up: their ACKs, and one update each. */
  function SetupEvents(log: Log, inputs: seq<PollInput>): seq<T.SetupEvent> {
    if inputs == [] then []
    else
      var earlier, last := inputs[..|inputs| - 1], inputs[|inputs| - 1];
      var before := LogAfterPolls(log, earlier);
      SetupEvents(log, earlier) + AckEvents(before, last.messages, last.now) +
      [UpdateEvent(SeenAt(before, last), last.now)]
  }

  /** What the polls mean to the failsafe monitor: their parameter values, and one observation each. */
  function FailsafeInputs(log: Log, inputs: seq<PollInput>): seq<F.Input> {
    if inputs == [] then []
    else
      var earlier, last := inputs[..|inputs| - 1], inputs[|inputs| - 1];
      var before := LogAfterPolls(log, earlier);
      FailsafeInputs(log, earlier) + ParameterInputs(before, last.messages, last.now) +
        [ObserveInput(SeenAt(before, last))]
  }

  // ----- the application follows them

  lemma FailsafeRunAppend(inputs: seq<F.Input>, input: F.Input)
    ensures F.Run(inputs + [input]) == F.Step(F.Run(inputs), input)
  {
    assert (inputs + [input])[..|inputs|] == inputs;
  }

  /** The log is `log`, the set-up has run over `events` from `t` on, and the failsafe monitor over `inputs`. */
  ghost predicate Follows(a: App, log: Log, t: T.Trail, events: seq<T.SetupEvent>, inputs: seq<F.Input>) {
    a.log == log && a.setup == T.Run(t, events).setup && a.failsafe == F.Run(inputs)
  }

  /** One message moves the log, the set-up and the failsafe monitor by what it means to them. */
  lemma MessageProjects(a: App, m: D.Message, now: Time, t: T.Trail, events: seq<T.SetupEvent>, inputs: seq<F.Input>)
    requires Follows(a, a.log, t, events, inputs)
    ensures var callback := D.CallbackOf(a.log, m, now);
      Follows(MessageHandled(a, m, now), D.Admit(a.log, m, now), t, events + AckEvent(callback, now),
              inputs + ParameterInput(callback))
  {
    var callback := D.CallbackOf(a.log, m, now);
    match callback
    case NoCallback => assert events + [] == events && inputs + [] == inputs;
    case AckCallback(ack) =>
      T.RunAppend(t, events, T.Ack(ack, now));
      assert inputs + [] == inputs;
    case ParameterCallback(system, component, id, value) =>
      FailsafeRunAppend(inputs, F.Parameter(system, component, id, value));
      assert events + [] == events;
  }

  lemma Regroup<X>(a: seq<X>, b: seq<X>, c: seq<X>)
    ensures a + b + c == a + (b + c)
  {
  }

  lemma SameEvents(a: App, log: Log, t: T.Trail, events: seq<T.SetupEvent>, inputs: seq<F.Input>,
                   events': seq<T.SetupEvent>, inputs': seq<F.Input>)
    requires Follows(a, log, t, events, inputs) && events == events' && inputs == inputs'
    ensures Follows(a, log, t, events', inputs')
  {
  }

  lemma {:induction false} IngestProjects(a: App, messages: seq<D.Message>, now: Time,
                                          t: T.Trail, events: seq<T.SetupEvent>, inputs: seq<F.Input>)
    requires Follows(a, a.log, t, events, inputs)
    ensures Follows(Ingested(a, messages, now), LogAfter(a.log, messages, now), t,
                    events + AckEvents(a.log, messages, now), inputs + ParameterInputs(a.log, messages, now))
  {
    if messages == [] {
      SameEvents(a, a.log, t, events, inputs, events + [], inputs + []);
    } else {
      var earlier, m := messages[..|messages| - 1], messages[|messages| - 1];
      IngestProjects(a, earlier, now, t, events, inputs);
      IngestOneMore(Ingested(a, earlier, now), m, now, t, events, AckEvents(a.log, earlier, now),
                    inputs, ParameterInputs(a.log, earlier, now));
    }
  }

  lemma IngestOneMore(a: App, m: D.Message, now: Time, t: T.Trail, events: seq<T.SetupEvent>, acks: seq<T.SetupEvent>,
                      inputs: seq<F.Input>, values: seq<F.Input>)
    requires Follows(a, a.log, t, events + acks, inputs + values)
    ensures var callback := D.CallbackOf(a.log, m, now);
      Follows(MessageHandled(a, m, now), D.Admit(a.log, m, now), t, events + (acks + AckEvent(callback, now)),
              inputs + (values + ParameterInput(callback)))
  {
    var callback := D.CallbackOf(a.log, m, now);
    MessageProjects(a, m, now, t, events + acks, inputs + values);
    Regroup(events, acks, AckEvent(callback, now));
    Regroup(inputs, values, ParameterInput(callback));
  }

  /** After the messages a poll updates the set-up once and shows the link to the failsafe monitor once. */
  ghost predicate DrivenStep(a: App, b: App, v: Vehicle, now: Time) {
    b.log == a.log && b.setup == T.Updated(a.setup, v.connected, v.systemId, now).0 &&
    b.failsafe == F.Observed(a.failsafe, v.connected, v.systemId)
  }

  lemma DrivenProjects(encode: Encoder, a: App, v: Vehicle, now: Time)
    ensures DrivenStep(a, Driven(encode, a, v, now), v, now)
  {
    var connected := ConnectionUpdated(SessionEntered(a, v), v, now);
    var beaten := HeartbeatSent(encode, connected, v, now);
    var ready := SetupUpdated(encode, beaten, v, now);
    assert beaten.setup == a.setup && beaten.log == a.log && beaten.failsafe == connected.failsafe;
    assert DrivenStep(a, ready, v, now);
    RequestsKeepTheRest(encode, ready, v, now);
  }

  lemma RequestsKeepTheRest(encode: Encoder, a: App, v: Vehicle, now: Time)
    ensures var b := ThresholdAsked(encode, VersionAsked(encode, FailsafeRequested(encode, a, v, now), v, now), v, now);
      b.log == a.log && b.setup == a.setup && b.failsafe == a.failsafe
  {
    var failsafe := FailsafeRequested(encode, a, v, now);
    assert failsafe.log == a.log && failsafe.setup == a.setup && failsafe.failsafe == a.failsafe;
    var version := VersionAsked(encode, failsafe, v, now);
    assert version.log == a.log && version.setup == a.setup && version.failsafe == a.failsafe;
  }

  lemma PollProjects(encode: Encoder, a: App, input: PollInput, t: T.Trail, events: seq<T.SetupEvent>,
                     inputs: seq<F.Input>)
    requires Follows(a, a.log, t, events, inputs)
    ensures var v := SeenAt(a.log, input);
      Follows(Polled(encode, a, input), LogAfter(a.log, input.messages, input.now), t,
              events + AckEvents(a.log, input.messages, input.now) + [UpdateEvent(v, input.now)],
              inputs + ParameterInputs(a.log, input.messages, input.now) + [ObserveInput(v)])
  {
    IngestProjects(a, input.messages, input.now, t, events, inputs);
    var ingested := Ingested(a, input.messages, input.now);
    var v := SeenAt(a.log, input);
    DrivenProjects(encode, ingested, v, input.now);
    T.RunAppend(t, events + AckEvents(a.log, input.messages, input.now), UpdateEvent(v, input.now));
    FailsafeRunAppend(inputs + ParameterInputs(a.log, input.messages, input.now), ObserveInput(v));
  }

  lemma PollOneMore(encode: Encoder, a: App, input: PollInput, t: T.Trail, events: seq<T.SetupEvent>,
                    before: seq<F.Input>, inputs: seq<F.Input>)
    requires Follows(a, a.log, t, events, before + inputs)
    ensures var v := SeenAt(a.log, input);
      Follows(Polled(encode, a, input), LogAfter(a.log, input.messages, input.now), t,
              events + AckEvents(a.log, input.messages, input.now) + [UpdateEvent(v, input.now)],
              before + (inputs + ParameterInputs(a.log, input.messages, input.now) + [ObserveInput(v)]))
  {
    PollProjects(encode, a, input, t, events, before + inputs);
    var v := SeenAt(a.log, input);
    Regroup(before, inputs, ParameterInputs(a.log, input.messages, input.now));
    Regroup(before, inputs + ParameterInputs(a.log, input.messages, input.now), [ObserveInput(v)]);
  }

  lemma {:induction false} RunFromProjects(encode: Encoder, a: App, t: T.Trail, before: seq<F.Input>,
                                           inputs: seq<PollInput>)
    requires a.setup == t.setup && a.failsafe == F.Run(before)
    ensures Follows(Run(encode, a, inputs), LogAfterPolls(a.log, inputs), t, SetupEvents(a.log, inputs),
                    before + FailsafeInputs(a.log, inputs))
  {
    if inputs == [] {
      SameEvents(a, a.log, t, [], before, [], before + []);
    } else {
      var earlier, last := inputs[..|inputs| - 1], inputs[|inputs| - 1];
      RunFromProjects(encode, a, t, before, earlier);
      PollOneMore(encode, Run(encode, a, earlier), last, t, SetupEvents(a.log, earlier),
                  before, FailsafeInputs(a.log, earlier));
    }
  }

  lemma IngestedAppend(trace: seq<D.Received>, r: D.Received)
    ensures D.Ingested(trace + [r]) == D.Admit(D.Ingested(trace), r.message, r.at)
  {
    assert (trace + [r])[..|trace|] == trace;
  }

  lemma {:induction false} LogIsIngested(trace: seq<D.Received>, messages: seq<D.Message>, now: Time)
    ensures D.Ingested(trace + Arrived(messages, now)) == LogAfter(D.Ingested(trace), messages, now)
    decreases |messages|
  {
    if messages == [] {
      assert trace + Arrived(messages, now) == trace;
    } else {
      var earlier, r := messages[..|messages| - 1], D.Received(messages[|messages| - 1], now);
      LogIsIngested(trace, earlier, now);
      IngestedAppend(trace + Arrived(earlier, now), r);
      Regroup(trace, Arrived(earlier, now), [r]);
    }
  }

  lemma {:induction false} LogOfPolls(inputs: seq<PollInput>)
    ensures LogAfterPolls([], inputs) == D.Ingested(Trace(inputs))
  {
    if inputs != [] {
      LogOfPolls(inputs[..|inputs| - 1]);
      var last := inputs[|inputs| - 1];
      LogIsIngested(Trace(inputs[..|inputs| - 1]), last.messages, last.now);
    }
  }

  /**
   Every run of polls is a run of each component: the log holds what the filter lets through of all
   messages, the set-up has run over the ACKs and updates, and the failsafe monitor over the
   parameter values and observations, all in the order of the polls.
   */
  lemma RunProjects(encode: Encoder, start: Link, sinks: seq<Sink>, inputs: seq<PollInput>)
    ensures var a := Run(encode, Initial(start, sinks), inputs);
      a.log == D.Ingested(Trace(inputs)) &&
      a.setup == T.Run(T.START, SetupEvents([], inputs)).setup &&
      a.failsafe == F.Run(FailsafeInputs([], inputs))
  {
    RunFromProjects(encode, Initial(start, sinks), T.START, [], inputs);
    LogOfPolls(inputs);
    assert [] + FailsafeInputs([], inputs) == FailsafeInputs([], inputs);
  }

  // ----- the theorems, for runs of polls

  /**
   After every run of polls, whatever the application knows of any kind was measured by one message of
   the identified vehicle's autopilot, received in the current session, at the time of its poll.
   */
  lemma RunShowsOwn(encode: Encoder, start: Link, sinks: seq<Sink>, inputs: seq<PollInput>, kind: Kind)
    returns (cause: nat)
    ensures var log := Run(encode, Initial(start, sinks), inputs).log;
      Known(Learned(log), kind).Some? ==> IsCause(log, Trace(inputs), kind, cause)
  {
    RunProjects(encode, start, sinks, inputs);
    cause := 0;
    if Known(Learned(D.Ingested(Trace(inputs))), kind).Some? {
      cause := D.ShownIsOwn(Trace(inputs), kind);
    }
  }

  /** Message `cause` is from the identified autopilot, in the current session, and says what is known of `kind`. */
  ghost predicate IsCause(log: Log, trace: seq<D.Received>, kind: Kind, cause: nat)
    requires Known(Learned(log), kind).Some?
  {
    cause < |trace| &&
    D.FromVehicle(LastHeartbeat(log), trace[cause].message) &&
    trace[cause].message.component == D.AUTOPILOT_COMPONENT &&
    D.EventOf(trace[cause].message).Some? && Carries(kind, D.EventOf(trace[cause].message).value) &&
    Known(Learned(log), kind).value ==
      StampedReading(trace[cause].at, ReadingOf(kind, D.EventOf(trace[cause].message).value)) &&
    exists k :: SessionStart(log) <= k < |D.Origins(trace)| && D.Origins(trace)[k] == cause
  }

  /** After every run of polls the failsafe is accepted exactly if its session's last values are safe. */
  lemma RunAcceptsIffSafe(encode: Encoder, start: Link, sinks: seq<Sink>, inputs: seq<PollInput>)
    ensures var given := FailsafeInputs([], inputs);
      Run(encode, Initial(start, sinks), inputs).failsafe.shown.phase == F.Accepted <==>
      F.SessionVehicle(given).Some? &&
      exists a, t, o, g ::
        F.LastValueIs(given, F.ACTION_NAME, a) && F.LastValueIs(given, F.TIMEOUT_NAME, t) &&
        F.LastValueIs(given, F.OPTIONS_NAME, o) && F.LastValueIs(given, F.GCS_ID_NAME, g) &&
        F.Safe(F.SessionVehicle(given).value, a, t, o, g)
  {
    RunProjects(encode, start, sinks, inputs);
    F.AcceptedIffSafe(FailsafeInputs([], inputs));
  }

  /** Every poll of `inputs`, starting from `log`, serves `vehicle`. */
  ghost predicate ServesThroughout(log: Log, inputs: seq<PollInput>, vehicle: nat) {
    forall i :: 0 <= i < |inputs| ==> Served(SeenAt(LogAfterPolls(log, inputs[..i]), inputs[i])) == Some(vehicle)
  }

  predicate FarApart(inputs: seq<PollInput>) {
    forall i, j :: 0 <= i < j < |inputs| ==> inputs[j].now >= inputs[i].now + T.ACKNOWLEDGEMENT_TIMEOUT
  }

  predicate IsProgress(m: D.Message) {
    m.body.CommandAckBody? && m.body.result == T.RESULT_IN_PROGRESS
  }

  predicate NoProgress(messages: seq<D.Message>) {
    forall i :: 0 <= i < |messages| ==> !IsProgress(messages[i])
  }

  predicate NoProgressAtAll(inputs: seq<PollInput>) {
    forall i :: 0 <= i < |inputs| ==> NoProgress(inputs[i].messages)
  }

  lemma {:induction false} AcksAreFinal(log: Log, messages: seq<D.Message>, now: Time)
    requires NoProgress(messages)
    ensures var events := AckEvents(log, messages, now);
      T.NothingPending(events) && forall i :: 0 <= i < |events| ==> events[i].Ack?
  {
    if messages != [] {
      AcksAreFinal(log, messages[..|messages| - 1], now);
      assert !IsProgress(messages[|messages| - 1]);
    }
  }

  /** The updates of `events` are at poll times. */
  ghost predicate AtPolls(events: seq<T.SetupEvent>, inputs: seq<PollInput>) {
    forall i :: 0 <= i < |events| && events[i].Update? ==>
      exists k :: 0 <= k < |inputs| && events[i].at == inputs[k].now
  }

  ghost predicate Orderly(events: seq<T.SetupEvent>, inputs: seq<PollInput>, vehicle: nat) {
    T.InSession(events, vehicle) && T.NothingPending(events) && T.Spaced(events) &&
    T.Updates(events) == |inputs| && AtPolls(events, inputs)
  }

  lemma {:induction false} UpdatesOfAcks(events: seq<T.SetupEvent>, acks: seq<T.SetupEvent>)
    requires forall i :: 0 <= i < |acks| ==> acks[i].Ack?
    ensures T.Updates(events + acks) == T.Updates(events)
    decreases |acks|
  {
    if acks == [] {
      assert events + acks == events;
    } else {
      var last := |acks| - 1;
      UpdatesOfAcks(events, acks[..last]);
      assert (events + acks)[..|events| + last] == events + acks[..last];
    }
  }

  lemma AcksKeepOrder(events: seq<T.SetupEvent>, acks: seq<T.SetupEvent>, inputs: seq<PollInput>, vehicle: nat)
    requires Orderly(events, inputs, vehicle)
    requires T.NothingPending(acks) && forall i :: 0 <= i < |acks| ==> acks[i].Ack?
    ensures Orderly(events + acks, inputs, vehicle)
  {
    UpdatesOfAcks(events, acks);
    var all := events + acks;
    assert forall i :: 0 <= i < |all| && all[i].Update? ==> i < |events| && all[i] == events[i];
  }

  lemma UpdateKeepsOrder(events: seq<T.SetupEvent>, inputs: seq<PollInput>, last: PollInput, vehicle: nat,
                         update: T.SetupEvent)
    requires Orderly(events, inputs, vehicle) && update == T.Update(true, Some(vehicle), last.now)
    requires forall k :: 0 <= k < |inputs| ==> last.now >= inputs[k].now + T.ACKNOWLEDGEMENT_TIMEOUT
    ensures Orderly(events + [update], inputs + [last], vehicle)
  {
    T.RunAppend(T.START, events, update);
    UpdateIsSpaced(events, inputs, last, update);
    UpdateIsAtPoll(events, inputs, last, update);
  }

  lemma UpdateIsAtPoll(events: seq<T.SetupEvent>, inputs: seq<PollInput>, last: PollInput, update: T.SetupEvent)
    requires AtPolls(events, inputs) && update.Update? && update.at == last.now
    ensures AtPolls(events + [update], inputs + [last])
  {
    var all, polls := events + [update], inputs + [last];
    forall i | 0 <= i < |all| && all[i].Update? ensures exists k :: 0 <= k < |polls| && all[i].at == polls[k].now {
      if i < |events| {
        var k :| 0 <= k < |inputs| && events[i].at == inputs[k].now;
        assert polls[k] == inputs[k];
      } else {
        assert polls[|inputs|] == last;
      }
    }
  }

  lemma UpdateIsSpaced(events: seq<T.SetupEvent>, inputs: seq<PollInput>, last: PollInput, update: T.SetupEvent)
    requires T.Spaced(events) && AtPolls(events, inputs) && update.Update? && update.at == last.now
    requires forall k :: 0 <= k < |inputs| ==> last.now >= inputs[k].now + T.ACKNOWLEDGEMENT_TIMEOUT
    ensures T.Spaced(events + [update])
  {
    forall i | 0 <= i < |events| && events[i].Update? ensures update.at >= events[i].at + T.ACKNOWLEDGEMENT_TIMEOUT {
      var k :| 0 <= k < |inputs| && events[i].at == inputs[k].now;
    }
  }

  lemma ServesEarlier(log: Log, all: seq<PollInput>, earlier: seq<PollInput>, last: PollInput, vehicle: nat)
    requires all == earlier + [last] && ServesThroughout(log, all, vehicle)
    ensures ServesThroughout(log, earlier, vehicle)
    ensures Served(SeenAt(LogAfterPolls(log, earlier), last)) == Some(vehicle)
  {
    forall i | 0 <= i < |earlier|
      ensures Served(SeenAt(LogAfterPolls(log, earlier[..i]), earlier[i])) == Some(vehicle)
    {
      assert all[i] == earlier[i] && all[..i] == earlier[..i];
    }
    assert all[|earlier|] == last && all[..|earlier|] == earlier;
  }

  lemma FarApartEarlier(all: seq<PollInput>, earlier: seq<PollInput>, last: PollInput)
    requires all == earlier + [last] && FarApart(all) && NoProgressAtAll(all)
    ensures FarApart(earlier) && NoProgressAtAll(earlier) && NoProgress(last.messages)
    ensures forall k :: 0 <= k < |earlier| ==> last.now >= earlier[k].now + T.ACKNOWLEDGEMENT_TIMEOUT
  {
    assert all[|earlier|] == last && forall k :: 0 <= k < |earlier| ==> all[k] == earlier[k];
  }

  lemma SetupEventsStep(log: Log, earlier: seq<PollInput>, last: PollInput)
    ensures var before := LogAfterPolls(log, earlier);
      SetupEvents(log, earlier + [last]) ==
        SetupEvents(log, earlier) + AckEvents(before, last.messages, last.now) +
        [UpdateEvent(SeenAt(before, last), last.now)]
  {
    assert (earlier + [last])[..|earlier|] == earlier;
  }

  /** Poll `last`, after `earlier`, goes on serving the vehicle, in time and without progress reports. */
  ghost predicate GoesOn(log: Log, earlier: seq<PollInput>, last: PollInput, vehicle: nat) {
    NoProgress(last.messages) && Served(SeenAt(LogAfterPolls(log, earlier), last)) == Some(vehicle) &&
    forall k :: 0 <= k < |earlier| ==> last.now >= earlier[k].now + T.ACKNOWLEDGEMENT_TIMEOUT
  }

  lemma CutLast<X>(s: seq<X>) returns (front: seq<X>, last: X)
    requires s != []
    ensures s == front + [last] && |front| < |s|
  {
    front, last := s[..|s| - 1], s[|s| - 1];
  }

  lemma SplitLast(log: Log, inputs: seq<PollInput>, vehicle: nat) returns (earlier: seq<PollInput>, last: PollInput)
    requires inputs != [] && ServesThroughout(log, inputs, vehicle) && FarApart(inputs) && NoProgressAtAll(inputs)
    ensures inputs == earlier + [last] && |earlier| < |inputs|
    ensures ServesThroughout(log, earlier, vehicle) && FarApart(earlier) && NoProgressAtAll(earlier)
    ensures GoesOn(log, earlier, last, vehicle)
  {
    earlier, last := CutLast(inputs);
    ServesEarlier(log, inputs, earlier, last, vehicle);
    FarApartEarlier(inputs, earlier, last);
  }

  lemma {:induction false} SessionIsOrderly(log: Log, inputs: seq<PollInput>, vehicle: nat)
    requires ServesThroughout(log, inputs, vehicle) && FarApart(inputs) && NoProgressAtAll(inputs)
    ensures Orderly(SetupEvents(log, inputs), inputs, vehicle)
    decreases |inputs|
  {
    if inputs != [] {
      var earlier, last := SplitLast(log, inputs, vehicle);
      SessionIsOrderly(log, earlier, vehicle);
      OneMoreIsOrderly(log, earlier, last, vehicle);
    }
  }

  lemma OneMoreIsOrderly(log: Log, earlier: seq<PollInput>, last: PollInput, vehicle: nat)
    requires Orderly(SetupEvents(log, earlier), earlier, vehicle) && GoesOn(log, earlier, last, vehicle)
    ensures Orderly(SetupEvents(log, earlier + [last]), earlier + [last], vehicle)
  {
    SetupEventsStep(log, earlier, last);
    PollIsOrderly(SetupEvents(log, earlier), LogAfterPolls(log, earlier), earlier, last, vehicle);
  }

  lemma PollIsOrderly(events: seq<T.SetupEvent>, log: Log, inputs: seq<PollInput>, last: PollInput, vehicle: nat)
    requires Orderly(events, inputs, vehicle) && NoProgress(last.messages)
    requires Served(SeenAt(log, last)) == Some(vehicle)
    requires forall k :: 0 <= k < |inputs| ==> last.now >= inputs[k].now + T.ACKNOWLEDGEMENT_TIMEOUT
    ensures Orderly(events + AckEvents(log, last.messages, last.now) + [UpdateEvent(SeenAt(log, last), last.now)],
                    inputs + [last], vehicle)
  {
    var acks := AckEvents(log, last.messages, last.now);
    AcksAreFinal(log, last.messages, last.now);
    AcksKeepOrder(events, acks, inputs, vehicle);
    UpdateKeepsOrder(events + acks, inputs, last, vehicle, UpdateEvent(SeenAt(log, last), last.now));
  }

  /** All events of `events` happened at poll times. */
  ghost predicate HappenAtPolls(events: seq<T.SetupEvent>, inputs: seq<PollInput>) {
    forall i :: 0 <= i < |events| ==> IsPollTime(events[i].at, inputs)
  }

  ghost predicate IsPollTime(time: Time, inputs: seq<PollInput>) {
    exists k :: 0 <= k < |inputs| && time == inputs[k].now
  }

  lemma {:induction false} AcksHappenNow(log: Log, messages: seq<D.Message>, now: Time)
    ensures forall i :: 0 <= i < |AckEvents(log, messages, now)| ==> AckEvents(log, messages, now)[i].at == now
  {
    if messages != [] {
      AcksHappenNow(log, messages[..|messages| - 1], now);
    }
  }

  lemma StillPollTime(time: Time, inputs: seq<PollInput>, last: PollInput)
    ensures IsPollTime(time, inputs) ==> IsPollTime(time, inputs + [last])
    ensures IsPollTime(last.now, inputs + [last])
  {
    var all := inputs + [last];
    assert all[|inputs|] == last;
    if IsPollTime(time, inputs) {
      var k :| 0 <= k < |inputs| && time == inputs[k].now;
      assert all[k] == inputs[k];
    }
  }

  lemma {:induction false} EventsHappenAtPolls(log: Log, inputs: seq<PollInput>)
    ensures HappenAtPolls(SetupEvents(log, inputs), inputs)
    decreases |inputs|
  {
    if inputs != [] {
      var earlier, last := CutLast(inputs);
      EventsHappenAtPolls(log, earlier);
      LaterEventsHappenAtPolls(log, earlier, last);
    }
  }

  lemma LaterEventsHappenAtPolls(log: Log, earlier: seq<PollInput>, last: PollInput)
    requires HappenAtPolls(SetupEvents(log, earlier), earlier)
    ensures HappenAtPolls(SetupEvents(log, earlier + [last]), earlier + [last])
  {
    SetupEventsStep(log, earlier, last);
    AcksHappenNow(LogAfterPolls(log, earlier), last.messages, last.now);
    var events, before := SetupEvents(log, earlier + [last]), SetupEvents(log, earlier);
    forall i | 0 <= i < |events| ensures IsPollTime(events[i].at, earlier + [last]) {
      StillPollTime(events[i].at, earlier, last);
      if i < |before| {
        assert events[i] == before[i];
      }
    }
  }

  /** The clock does not run backwards from `before` to `session`. */
  predicate NotBefore(before: seq<PollInput>, session: seq<PollInput>) {
    forall i, j :: 0 <= i < |before| && 0 <= j < |session| ==> before[i].now <= session[j].now
  }

  lemma DeadlineIsNear(s: T.Setup, events: seq<T.SetupEvent>, before: seq<PollInput>, session: seq<PollInput>, log: Log,
                       vehicle: nat)
    requires T.SetAt(s, events) && HappenAtPolls(events, before) && NotBefore(before, session)
    ensures T.DeadlineNear(s, SetupEvents(log, session), vehicle)
  {
    var later := SetupEvents(log, session);
    EventsHappenAtPolls(log, session);
    if s.awaiting {
      var i :| 0 <= i < |events| && s.deadline == events[i].at + T.ACKNOWLEDGEMENT_TIMEOUT;
      var k :| 0 <= k < |before| && events[i].at == before[k].now;
      forall j | 0 <= j < |later| ensures s.deadline <= later[j].at + T.ACKNOWLEDGEMENT_TIMEOUT {
        assert IsPollTime(later[j].at, session);
        var m :| 0 <= m < |session| && later[j].at == session[m].now;
      }
    }
  }

  /**
   Retry termination for runs of polls: whatever happened before, 19 polls that serve a vehicle, at
   least 2 s apart and without an IN_PROGRESS ACK, leave its set-up active or failed.
   */
  lemma PollsEndSetup(encode: Encoder, start: Link, sinks: seq<Sink>, before: seq<PollInput>, session: seq<PollInput>,
                      vehicle: nat)
    requires ServesThroughout(Run(encode, Initial(start, sinks), before).log, session, vehicle)
    requires NotBefore(before, session) && FarApart(session) && NoProgressAtAll(session) && |session| >= 19
    ensures Run(encode, Run(encode, Initial(start, sinks), before), session).setup.phase in {T.Active, T.Failed}
  {
    P.RunStaysSound(encode, start, sinks, before);
    RunProjects(encode, start, sinks, before);
    var a, events := Run(encode, Initial(start, sinks), before), SetupEvents([], before);
    T.DeadlineIsRecent(T.START, events);
    EventsHappenAtPolls([], before);
    DeadlineIsNear(a.setup, events, before, session, a.log, vehicle);
    SessionEndsSetup(encode, a, FailsafeInputs([], before), session, vehicle);
  }

  lemma SessionEndsSetup(encode: Encoder, a: App, before: seq<F.Input>, session: seq<PollInput>, vehicle: nat)
    requires T.Coherent(a.setup) && a.failsafe == F.Run(before)
    requires T.DeadlineNear(a.setup, SetupEvents(a.log, session), vehicle)
    requires ServesThroughout(a.log, session, vehicle)
    requires FarApart(session) && NoProgressAtAll(session) && |session| >= 19
    ensures Run(encode, a, session).setup.phase in {T.Active, T.Failed}
  {
    var t := T.Trail(a.setup, [], 0);
    RunFromProjects(encode, a, t, before, session);
    SessionIsOrderly(a.log, session, vehicle);
    T.SetupTerminates(t, SetupEvents(a.log, session), vehicle);
  }
}
