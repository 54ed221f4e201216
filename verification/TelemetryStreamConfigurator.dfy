/**
 The stream set-up protocol: six SET_MESSAGE_INTERVAL commands in a fixed order, each sent up to
 three times with a growing `confirmation` until the autopilot accepts it (the Command Protocol of
 the MAVLink Developer Guide).
 */
module TelemetryStreamConfigurator {
  import opened Basics
  import opened MavlinkDecoder

  const COMMAND_SET_MESSAGE_INTERVAL := 511
  const RESULT_ACCEPTED := 0
  const RESULT_IN_PROGRESS := 5
  const COMPANION_COMPONENT := 191
  const ACKNOWLEDGEMENT_TIMEOUT := 2 * SECOND
  const MAXIMUM_ATTEMPTS := 3

  datatype StreamRequest = StreamRequest(messageId: nat, intervalMicroseconds: nat)

  const STREAMS: seq<StreamRequest> := [
    StreamRequest(1, 1_000_000),    // SYS_STATUS at 1 Hz
    StreamRequest(24, 500_000),     // GPS_RAW_INT at 2 Hz
    StreamRequest(147, 1_000_000),  // BATTERY_STATUS at 1 Hz
    StreamRequest(33, 200_000),     // GLOBAL_POSITION_INT at 5 Hz
    StreamRequest(32, 100_000),     // LOCAL_POSITION_NED at 10 Hz
    StreamRequest(30, 100_000)      // ATTITUDE at 10 Hz
  ]

  const STREAM_COUNT := 6

  datatype Phase = WaitingForVehicle | Configuring | Active | Failed

  /** One command on the wire, for `STREAMS[stream]`. */
  datatype IntervalRequest = IntervalRequest(system: nat, stream: nat, confirmation: nat)

  datatype Setup = Setup(
    phase: Phase,
    vehicle: Option<nat>,
    current: nat,
    completed: nat,
    attempt: nat,
    awaiting: bool,
    deadline: Time,
    failure: Option<nat>)

  const IDLE := Setup(WaitingForVehicle, None, 0, 0, 0, false, 0, None)

  function Begun(vehicle: nat): Setup {
    IDLE.(phase := Configuring, vehicle := Some(vehicle))
  }

  // ----- one step

  /** The state an update works on: reset, begun anew, or kept. */
  function Entered(s: Setup, connected: bool, vehicle: Option<nat>): Setup {
    if !connected || vehicle.None? then IDLE
    else if s.vehicle != vehicle then Begun(vehicle.value)
    else s
  }

  function Updated(s: Setup, connected: bool, vehicle: Option<nat>, now: Time): (Setup, Option<IntervalRequest>) {
    var e := Entered(s, connected, vehicle);
    if e.phase != Configuring || e.vehicle.None? then (e, None)
    else if e.awaiting && now < e.deadline then (e, None)
    else if e.awaiting && e.attempt >= MAXIMUM_ATTEMPTS then (e.(phase := Failed, failure := None), None)
    else
      (e.(attempt := e.attempt + 1, awaiting := true, deadline := now + ACKNOWLEDGEMENT_TIMEOUT),
       Some(IntervalRequest(e.vehicle.value, e.current, e.attempt % 0x100)))
  }

  /** True if `ack` answers the command the set-up is waiting on. */
  predicate Answers(s: Setup, ack: CommandAck) {
    s.phase == Configuring && s.awaiting &&
    ack.command == COMMAND_SET_MESSAGE_INTERVAL && Some(ack.sourceSystem) == s.vehicle &&
    (ack.targetSystem == 0 || ack.targetSystem == ack.sourceSystem) &&
    (ack.targetComponent == 0 || ack.targetComponent == COMPANION_COMPONENT)
  }

  function Acknowledged(s: Setup, ack: CommandAck, now: Time): Setup {
    if !Answers(s, ack) then s
    else if ack.result == RESULT_IN_PROGRESS then s.(deadline := now + ACKNOWLEDGEMENT_TIMEOUT)
    else if ack.result != RESULT_ACCEPTED then s.(phase := Failed, failure := Some(ack.result), awaiting := false)
    else s.(
      completed := s.completed + 1,
      current := s.current + 1,
      attempt := 0,
      awaiting := false,
      failure := None,
      phase := if s.current + 1 == STREAM_COUNT then Active else s.phase)
  }

  // ----- runs

  datatype SetupEvent =
    | Update(connected: bool, vehicle: Option<nat>, at: Time)
    | Ack(ack: CommandAck, at: Time)

  /** The set-up together with what it sent, and which ACKs it took, since it last began. */
  datatype Trail = Trail(setup: Setup, sent: seq<IntervalRequest>, accepted: nat)

  function Step(t: Trail, e: SetupEvent): Trail {
    match e
    case Update(connected, vehicle, now) =>
      var (next, request) := Updated(t.setup, connected, vehicle, now);
      var renewed := Entered(t.setup, connected, vehicle) != t.setup;
      Trail(next,
            (if renewed then [] else t.sent) + (if request.Some? then [request.value] else []),
            if renewed then 0 else t.accepted)
    case Ack(ack, now) =>
      Trail(Acknowledged(t.setup, ack, now), t.sent,
            t.accepted + (if Answers(t.setup, ack) && ack.result == RESULT_ACCEPTED then 1 else 0))
  }

  function Run(t: Trail, events: seq<SetupEvent>): Trail {
    if events == [] then t else Step(Run(t, events[..|events| - 1]), events[|events| - 1])
  }

  const START := Trail(IDLE, [], 0)

  // ----- what every run keeps

  predicate Coherent(s: Setup) {
    s.completed == s.current <= STREAM_COUNT && s.attempt <= MAXIMUM_ATTEMPTS &&
    match s.phase
    case WaitingForVehicle => s == IDLE
    case Configuring =>
      s.vehicle.Some? && s.current < STREAM_COUNT && s.awaiting == (s.attempt > 0) && s.failure == None
    case Active => s.vehicle.Some? && s.current == STREAM_COUNT && s.attempt == 0 && !s.awaiting && s.failure == None
    case Failed =>
      s.vehicle.Some? && s.current < STREAM_COUNT && s.attempt > 0 &&
      (if s.failure.None? then s.attempt == MAXIMUM_ATTEMPTS && s.awaiting
       else s.failure.value !in {RESULT_ACCEPTED, RESULT_IN_PROGRESS} && !s.awaiting)
  }

  /** `next` repeats the same stream with the next confirmation, or starts on the next stream. */
  predicate Follows(previous: IntervalRequest, next: IntervalRequest) {
    (next.stream == previous.stream && next.confirmation == previous.confirmation + 1) ||
    (next.stream == previous.stream + 1 && next.confirmation == 0)
  }

  /** The commands of one set-up, as they must appear on the wire. */
  predicate InTableOrder(sent: seq<IntervalRequest>, vehicle: nat) {
    (forall i :: 0 <= i < |sent| ==>
       sent[i].system == vehicle && sent[i].stream < STREAM_COUNT && sent[i].confirmation < MAXIMUM_ATTEMPTS) &&
    (sent != [] ==> sent[0].stream == sent[0].confirmation == 0) &&
    (forall i :: 0 < i < |sent| ==> Follows(sent[i - 1], sent[i]))
  }

  /** How far the commands on the wire have come, as told by the state. */
  predicate EndsAt(sent: seq<IntervalRequest>, s: Setup) {
    if s.attempt > 0 then
      sent != [] && sent[|sent| - 1].stream == s.current && sent[|sent| - 1].confirmation == s.attempt - 1
    else if s.current > 0 then sent != [] && sent[|sent| - 1].stream == s.current - 1
    else sent == []
  }

  predicate OnTrack(t: Trail) {
    Coherent(t.setup) && EndsAt(t.sent, t.setup) && t.accepted == t.setup.completed &&
    (if t.setup.vehicle.None? then t.sent == [] else InTableOrder(t.sent, t.setup.vehicle.value))
  }

  lemma StepKeepsTrack(t: Trail, e: SetupEvent)
    requires OnTrack(t)
    ensures OnTrack(Step(t, e))
  {
    match e
    case Update(connected, vehicle, now) =>
      var entered := Entered(t.setup, connected, vehicle);
      var sent := if entered != t.setup then [] else t.sent;
      assert Entered(entered, connected, vehicle) == entered;
      EnteringKeepsTrack(t, connected, vehicle);
      SendingKeepsTrack(Trail(entered, sent, entered.completed), connected, vehicle, now);
    case Ack(ack, now) => AckKeepsTrack(t, ack, now);
  }

  lemma EnteringKeepsTrack(t: Trail, connected: bool, vehicle: Option<nat>)
    requires OnTrack(t)
    ensures var entered := Entered(t.setup, connected, vehicle);
      OnTrack(Trail(entered, if entered != t.setup then [] else t.sent, entered.completed))
  {
  }

  lemma SendingKeepsTrack(t: Trail, connected: bool, vehicle: Option<nat>, now: Time)
    requires OnTrack(t) && Entered(t.setup, connected, vehicle) == t.setup
    ensures var (next, request) := Updated(t.setup, connected, vehicle, now);
      OnTrack(Trail(next, t.sent + (if request.Some? then [request.value] else []), t.accepted))
  {
  }

  lemma AckKeepsTrack(t: Trail, ack: CommandAck, now: Time)
    requires OnTrack(t)
    ensures OnTrack(Step(t, Ack(ack, now)))
  {
  }

  /**
   Wire order and bookkeeping, for every run of updates and ACKs with any connections, identities
   and times: what was sent since the set-up began is in table order with confirmations counting
   from 0, ends at the current attempt, and as many commands are completed as were accepted.
   */
  lemma {:induction false} RunKeepsTrack(events: seq<SetupEvent>)
    ensures OnTrack(Run(START, events))
  {
    if events != [] {
      RunKeepsTrack(events[..|events| - 1]);
      StepKeepsTrack(Run(START, events[..|events| - 1]), events[|events| - 1]);
    }
  }

  function Rank(r: IntervalRequest): nat {
    MAXIMUM_ATTEMPTS * r.stream + r.confirmation
  }

  /** Table order is strictly increasing in (stream, confirmation), so it allows 18 commands at most. */
  lemma {:induction false} TableOrderIsBounded(sent: seq<IntervalRequest>, vehicle: nat)
    requires InTableOrder(sent, vehicle)
    ensures forall i, j :: 0 <= i < j < |sent| ==>
      sent[i].stream < sent[j].stream ||
      (sent[i].stream == sent[j].stream && sent[i].confirmation < sent[j].confirmation)
    ensures |sent| <= STREAM_COUNT * MAXIMUM_ATTEMPTS
    ensures sent != [] ==> |sent| <= Rank(sent[|sent| - 1]) + 1
    decreases |sent|
  {
    if |sent| > 0 {
      var shorter := sent[..|sent| - 1];
      TableOrderIsBounded(shorter, vehicle);
      if |sent| > 1 {
        assert shorter[|shorter| - 1] == sent[|sent| - 2];
        assert Follows(sent[|sent| - 2], sent[|sent| - 1]);
        assert Rank(shorter[|shorter| - 1]) < Rank(sent[|sent| - 1]);
      }
    }
  }

  predicate AskedFor(sent: seq<IntervalRequest>, stream: nat) {
    exists i :: 0 <= i < |sent| && sent[i].stream == stream && sent[i].confirmation == 0
  }

  /** Every stream up to the last one sent was asked for: none is skipped. */
  lemma {:induction false} TableOrderSkipsNothing(sent: seq<IntervalRequest>, vehicle: nat, stream: nat)
    requires InTableOrder(sent, vehicle) && sent != [] && stream <= sent[|sent| - 1].stream
    ensures AskedFor(sent, stream)
    decreases |sent|
  {
    var last := |sent| - 1;
    if sent[last].stream != stream || sent[last].confirmation != 0 {
      assert last > 0 && Follows(sent[last - 1], sent[last]);
      TableOrderSkipsNothing(sent[..last], vehicle, stream);
      var i :| 0 <= i < last && sent[..last][i].stream == stream && sent[..last][i].confirmation == 0;
      assert sent[i].stream == stream;
    }
  }

  /** The last `attempts` commands were successive attempts at one stream. */
  predicate EndsWithAttempts(sent: seq<IntervalRequest>, vehicle: nat, stream: nat, attempts: nat) {
    |sent| >= attempts &&
    forall k :: 0 <= k < attempts ==> sent[|sent| - attempts + k] == IntervalRequest(vehicle, stream, k)
  }

  lemma {:induction false} LastAttempts(sent: seq<IntervalRequest>, vehicle: nat)
    requires InTableOrder(sent, vehicle) && sent != []
    ensures var r := sent[|sent| - 1]; EndsWithAttempts(sent, vehicle, r.stream, r.confirmation + 1)
    decreases |sent|
  {
    var last := |sent| - 1;
    if sent[last].confirmation > 0 {
      assert last > 0 && Follows(sent[last - 1], sent[last]);
      LastAttempts(sent[..last], vehicle);
    }
  }

  /**
   The set-up succeeds only after every stream was asked for and six commands were accepted; it
   fails without a result only after three attempts at one stream.
   */
  lemma OutcomesAreEarned(events: seq<SetupEvent>)
    ensures var t := Run(START, events);
      && (t.setup.phase == Active ==>
            t.accepted == STREAM_COUNT && forall stream | 0 <= stream < STREAM_COUNT :: AskedFor(t.sent, stream))
      && (t.setup.phase == Failed && t.setup.failure == None ==>
            t.setup.vehicle.Some? && EndsWithAttempts(t.sent, t.setup.vehicle.value, t.setup.current, 3))
  {
    RunKeepsTrack(events);
    var t := Run(START, events);
    if t.setup.phase == Active {
      forall stream: nat | stream < STREAM_COUNT ensures AskedFor(t.sent, stream) {
        TableOrderSkipsNothing(t.sent, t.setup.vehicle.value, stream);
      }
    }
    if t.setup.phase == Failed && t.setup.failure == None {
      LastAttempts(t.sent, t.setup.vehicle.value);
    }
  }

  // ----- termination

  predicate InSession(events: seq<SetupEvent>, vehicle: nat) {
    forall i :: 0 <= i < |events| && events[i].Update? ==> events[i].connected && events[i].vehicle == Some(vehicle)
  }

  predicate NothingPending(events: seq<SetupEvent>) {
    forall i :: 0 <= i < |events| && events[i].Ack? ==> events[i].ack.result != RESULT_IN_PROGRESS
  }

  predicate Spaced(events: seq<SetupEvent>) {
    forall i, j :: 0 <= i < j < |events| && events[i].Update? && events[j].Update? ==>
      events[j].at >= events[i].at + ACKNOWLEDGEMENT_TIMEOUT
  }

  function Updates(events: seq<SetupEvent>): nat {
    if events == [] then 0
    else Updates(events[..|events| - 1]) + if events[|events| - 1].Update? then 1 else 0
  }

  /** How many commands the set-up has used up, of the 18 it may send. */
  function Progress(s: Setup): nat {
    MAXIMUM_ATTEMPTS * s.current + s.attempt
  }

  /** A pending deadline was set by one of the updates, or lies no further off than if it had been. */
  ghost predicate DeadlineDue(s: Setup, events: seq<SetupEvent>) {
    s.awaiting ==>
      exists i :: 0 <= i < |events| && events[i].Update? && s.deadline <= events[i].at + ACKNOWLEDGEMENT_TIMEOUT
  }

  /** If the set-up of the vehicle is under way, its pending deadline is no more than 2 s off at any of the updates. */
  predicate DeadlineNear(s: Setup, events: seq<SetupEvent>, vehicle: nat) {
    s.vehicle == Some(vehicle) && s.awaiting ==>
      forall i :: 0 <= i < |events| && events[i].Update? ==> s.deadline <= events[i].at + ACKNOWLEDGEMENT_TIMEOUT
  }

  /** Where the set-up stands after `events`: each update has used up a command, or waits for one sent before. */
  ghost predicate Underway(start: Setup, s: Setup, events: seq<SetupEvent>, vehicle: nat) {
    Coherent(s) &&
    if Updates(events) == 0 then
      s.vehicle == start.vehicle && (s.awaiting ==> start.awaiting && s.deadline == start.deadline)
    else
      s.vehicle == Some(vehicle) &&
      (s.phase == Configuring ==> Updates(events) <= Progress(s) && DeadlineDue(s, events))
  }

  lemma {:induction false} UpdatesAreProgress(t: Trail, events: seq<SetupEvent>, vehicle: nat)
    requires Coherent(t.setup) && DeadlineNear(t.setup, events, vehicle)
    requires InSession(events, vehicle) && NothingPending(events) && Spaced(events)
    ensures Underway(t.setup, Run(t, events).setup, events, vehicle)
  {
    if events != [] {
      var last := |events| - 1;
      var earlier := events[..last];
      assert forall i :: 0 <= i < last ==> earlier[i] == events[i];
      UpdatesAreProgress(t, earlier, vehicle);
      match events[last]
      case Ack(ack, at) => AckIsUnderway(t.setup, Run(t, earlier).setup, events, vehicle);
      case Update(_, _, at) =>
        if Updates(earlier) == 0 {
          FirstIsUnderway(t.setup, Run(t, earlier).setup, events, vehicle);
        } else {
          UpdateIsUnderway(t.setup, Run(t, earlier).setup, events, vehicle);
        }
    }
  }

  lemma AckIsUnderway(start: Setup, s: Setup, events: seq<SetupEvent>, vehicle: nat)
    requires events != [] && events[|events| - 1].Ack? && NothingPending(events)
    requires Underway(start, s, events[..|events| - 1], vehicle)
    ensures var e := events[|events| - 1]; Underway(start, Acknowledged(s, e.ack, e.at), events, vehicle)
  {
    var last := |events| - 1;
    var e := events[last];
    assert e.ack.result != RESULT_IN_PROGRESS;
    if s.awaiting && Updates(events) > 0 && s.phase == Configuring {
      var i :| 0 <= i < last && events[..last][i].Update? &&
        s.deadline <= events[..last][i].at + ACKNOWLEDGEMENT_TIMEOUT;
      assert events[i].Update?;
    }
  }

  lemma FirstIsUnderway(start: Setup, s: Setup, events: seq<SetupEvent>, vehicle: nat)
    requires Coherent(start) && DeadlineNear(start, events, vehicle) && InSession(events, vehicle)
    requires events != [] && events[|events| - 1].Update? && Updates(events[..|events| - 1]) == 0
    requires Underway(start, s, events[..|events| - 1], vehicle)
    ensures Underway(start, Updated(s, true, Some(vehicle), events[|events| - 1].at).0, events, vehicle)
  {
    assert events[|events| - 1].Update?;
  }

  lemma UpdateIsUnderway(start: Setup, s: Setup, events: seq<SetupEvent>, vehicle: nat)
    requires events != [] && events[|events| - 1].Update? && Updates(events[..|events| - 1]) > 0 && Spaced(events)
    requires Underway(start, s, events[..|events| - 1], vehicle)
    ensures Underway(start, Updated(s, true, Some(vehicle), events[|events| - 1].at).0, events, vehicle)
  {
    var last := |events| - 1;
    if s.phase == Configuring && s.awaiting {
      var i :| 0 <= i < last && events[..last][i].Update? &&
        s.deadline <= events[..last][i].at + ACKNOWLEDGEMENT_TIMEOUT;
      assert events[i].Update? && s.deadline <= events[last].at;
    }
  }

  /**
   Retry termination: whatever the ACKs, as long as none is IN_PROGRESS and the updates are at least
   the deadline apart, the set-up is active or failed after 19 connected updates. It may already be
   under way when they begin, as long as its pending deadline is at most 2 s off by then.
   */
  lemma SetupTerminates(t: Trail, events: seq<SetupEvent>, vehicle: nat)
    requires Coherent(t.setup) && DeadlineNear(t.setup, events, vehicle)
    requires InSession(events, vehicle) && NothingPending(events) && Spaced(events)
    requires Updates(events) >= 19
    ensures Run(t, events).setup.phase in {Active, Failed}
  {
    UpdatesAreProgress(t, events, vehicle);
  }

  /** The deadline is never more than 2 s off at the time it is set, by an update or by an IN_PROGRESS ACK. */
  lemma {:induction false} DeadlineIsRecent(t: Trail, events: seq<SetupEvent>)
    requires !t.setup.awaiting
    ensures SetAt(Run(t, events).setup, events)
  {
    if events != [] {
      var last := |events| - 1;
      DeadlineIsRecent(t, events[..last]);
      DeadlineStaysRecent(Run(t, events[..last]), events);
    }
  }

  ghost predicate SetAt(s: Setup, events: seq<SetupEvent>) {
    s.awaiting ==> exists i :: 0 <= i < |events| && s.deadline == events[i].at + ACKNOWLEDGEMENT_TIMEOUT
  }

  lemma DeadlineStaysRecent(t: Trail, events: seq<SetupEvent>)
    requires events != [] && SetAt(t.setup, events[..|events| - 1])
    ensures SetAt(Step(t, events[|events| - 1]).setup, events)
  {
    var last := |events| - 1;
    var s := Step(t, events[last]).setup;
    if s.awaiting && s.deadline != events[last].at + ACKNOWLEDGEMENT_TIMEOUT {
      var i :| 0 <= i < last && t.setup.deadline == events[..last][i].at + ACKNOWLEDGEMENT_TIMEOUT;
      assert s.deadline == events[i].at + ACKNOWLEDGEMENT_TIMEOUT;
    }
  }

  /** Updates two seconds apart that spend three attempts on every stream before it is accepted. */
  function SlowRun(vehicle: nat, stream: nat, attempts: nat): seq<SetupEvent>
    decreases stream, attempts
  {
    if attempts > 0 then
      SlowRun(vehicle, stream, attempts - 1) + [Update(true, Some(vehicle), SlowTime(stream, attempts - 1))]
    else if stream > 0 then SlowRun(vehicle, stream - 1, MAXIMUM_ATTEMPTS) + [Ack(Acceptance(vehicle), 0)]
    else []
  }

  function SlowTime(stream: nat, attempts: nat): Time {
    (MAXIMUM_ATTEMPTS * stream + attempts) * ACKNOWLEDGEMENT_TIMEOUT
  }

  function Acceptance(vehicle: nat): CommandAck {
    CommandAck(vehicle, 1, COMMAND_SET_MESSAGE_INTERVAL, RESULT_ACCEPTED, 0, 0)
  }

  lemma RunAppend(t: Trail, events: seq<SetupEvent>, e: SetupEvent)
    ensures Run(t, events + [e]) == Step(Run(t, events), e)
    ensures Updates(events + [e]) == Updates(events) + if e.Update? then 1 else 0
  {
    assert (events + [e])[..|events|] == events;
  }

  /** Where a slow run stands: `attempts` into stream `stream`. */
  function SlowSetup(vehicle: nat, stream: nat, attempts: nat): Setup {
    if stream == attempts == 0 then IDLE
    else Setup(Configuring, Some(vehicle), stream, stream, attempts, attempts > 0, SlowTime(stream, attempts), None)
  }

  lemma SlowAttempt(vehicle: nat, stream: nat, attempts: nat)
    requires stream < STREAM_COUNT && attempts < MAXIMUM_ATTEMPTS
    ensures Updated(SlowSetup(vehicle, stream, attempts), true, Some(vehicle), SlowTime(stream, attempts)).0 ==
      SlowSetup(vehicle, stream, attempts + 1)
  {
    assert SlowTime(stream, attempts + 1) == SlowTime(stream, attempts) + ACKNOWLEDGEMENT_TIMEOUT;
  }

  lemma SlowAcceptance(vehicle: nat, stream: nat)
    requires stream + 1 < STREAM_COUNT
    ensures Acknowledged(SlowSetup(vehicle, stream, MAXIMUM_ATTEMPTS), Acceptance(vehicle), 0) ==
      SlowSetup(vehicle, stream + 1, 0)
  {
    assert SlowTime(stream, MAXIMUM_ATTEMPTS) == SlowTime(stream + 1, 0);
  }

  lemma {:induction false} SlowRunStands(vehicle: nat, stream: nat, attempts: nat)
    requires stream < STREAM_COUNT && attempts <= MAXIMUM_ATTEMPTS
    ensures Run(START, SlowRun(vehicle, stream, attempts)).setup == SlowSetup(vehicle, stream, attempts)
    decreases stream, attempts
  {
    if attempts > 0 {
      SlowRunStands(vehicle, stream, attempts - 1);
      SlowAttempt(vehicle, stream, attempts - 1);
      RunAppend(START, SlowRun(vehicle, stream, attempts - 1),
                Update(true, Some(vehicle), SlowTime(stream, attempts - 1)));
    } else if stream > 0 {
      SlowRunStands(vehicle, stream - 1, MAXIMUM_ATTEMPTS);
      SlowAcceptance(vehicle, stream - 1);
      RunAppend(START, SlowRun(vehicle, stream - 1, MAXIMUM_ATTEMPTS), Ack(Acceptance(vehicle), 0));
    }
  }

  predicate EndsBy(events: seq<SetupEvent>, time: Time) {
    forall i :: 0 <= i < |events| && events[i].Update? ==> events[i].at + ACKNOWLEDGEMENT_TIMEOUT <= time
  }

  predicate Patient(events: seq<SetupEvent>, vehicle: nat, time: Time) {
    InSession(events, vehicle) && NothingPending(events) && Spaced(events) && EndsBy(events, time)
  }

  lemma PatientAppend(events: seq<SetupEvent>, vehicle: nat, time: Time)
    requires Patient(events, vehicle, time)
    ensures Patient(events + [Update(true, Some(vehicle), time)], vehicle, time + ACKNOWLEDGEMENT_TIMEOUT)
    ensures Patient(events + [Ack(Acceptance(vehicle), 0)], vehicle, time)
  {
  }

  lemma {:induction false} SlowRunIsPatient(vehicle: nat, stream: nat, attempts: nat)
    ensures Patient(SlowRun(vehicle, stream, attempts), vehicle, SlowTime(stream, attempts))
    ensures Updates(SlowRun(vehicle, stream, attempts)) == MAXIMUM_ATTEMPTS * stream + attempts
    decreases stream, attempts
  {
    if attempts > 0 {
      SlowRunIsPatient(vehicle, stream, attempts - 1);
      PatientAppend(SlowRun(vehicle, stream, attempts - 1), vehicle, SlowTime(stream, attempts - 1));
      RunAppend(START, SlowRun(vehicle, stream, attempts - 1),
                Update(true, Some(vehicle), SlowTime(stream, attempts - 1)));
    } else if stream > 0 {
      SlowRunIsPatient(vehicle, stream - 1, MAXIMUM_ATTEMPTS);
      PatientAppend(SlowRun(vehicle, stream - 1, MAXIMUM_ATTEMPTS), vehicle, SlowTime(stream, 0));
      RunAppend(START, SlowRun(vehicle, stream - 1, MAXIMUM_ATTEMPTS), Ack(Acceptance(vehicle), 0));
    }
  }

  /** The bound is reached: 18 such updates may leave a set-up still waiting. */
  lemma EighteenUpdatesAreNotEnough(vehicle: nat)
    ensures exists events ::
      InSession(events, vehicle) && NothingPending(events) && Spaced(events) && Updates(events) == 18 &&
      Run(START, events).setup.phase == Configuring
  {
    SlowRunStands(vehicle, STREAM_COUNT - 1, MAXIMUM_ATTEMPTS);
    SlowRunIsPatient(vehicle, STREAM_COUNT - 1, MAXIMUM_ATTEMPTS);
    assert InSession(SlowRun(vehicle, STREAM_COUNT - 1, MAXIMUM_ATTEMPTS), vehicle);
  }

  /** Once active or failed, a set-up sends nothing more in its session. */
  lemma {:induction false} FinishedStaysSilent(t: Trail, events: seq<SetupEvent>, vehicle: nat)
    requires t.setup.phase in {Active, Failed} && t.setup.vehicle == Some(vehicle)
    requires InSession(events, vehicle)
    ensures Run(t, events) == t
  {
    if events != [] {
      var last := |events| - 1;
      assert forall i :: 0 <= i < last ==> events[..last][i] == events[i];
      FinishedStaysSilent(t, events[..last], vehicle);
    }
  }

  // ----- the configurator

  datatype TelemetrySnapshot = TelemetrySnapshot(
    phase: Phase, completed: nat, total: nat, currentStream: Option<nat>, attempt: nat, failure: Option<nat>)

  class TelemetryStreamConfigurator {
    var phase: Phase
    var vehicleSystemId: Option<nat>
    var currentRequest: nat
    var completedRequests: nat
    var attempt: nat
    var awaitingAck: bool
    var acknowledgementDeadline: Time
    var failureResult: Option<nat>

    ghost function Model(): Setup
      reads this
    {
      Setup(phase, vehicleSystemId, currentRequest, completedRequests, attempt, awaitingAck,
            acknowledgementDeadline, failureResult)
    }

    constructor ()
      ensures Model() == IDLE
    {
      phase, vehicleSystemId, currentRequest, completedRequests := WaitingForVehicle, None, 0, 0;
      attempt, awaitingAck, acknowledgementDeadline, failureResult := 0, false, 0, None;
    }

    method Reset()
      modifies this
      ensures Model() == IDLE
    {
      phase := WaitingForVehicle;
      vehicleSystemId := None;
      currentRequest := 0;
      completedRequests := 0;
      attempt := 0;
      awaitingAck := false;
      acknowledgementDeadline := 0;
      failureResult := None;
    }

    method Begin(vehicle: nat)
      modifies this
      ensures Model() == Begun(vehicle)
    {
      Reset();
      phase := Configuring;
      vehicleSystemId := Some(vehicle);
    }

    method Update(connected: bool, vehicle: Option<nat>, now: Time) returns (request: Option<IntervalRequest>)
      requires Coherent(Model())
      modifies this
      ensures Coherent(Model())
      ensures (Model(), request) == Updated(old(Model()), connected, vehicle, now)
    {
      request := None;
      if !connected || vehicle.None? {
        Reset();
        return;
      }
      if vehicleSystemId.None? || vehicleSystemId.value != vehicle.value {
        Begin(vehicle.value);
      }
      if phase != Configuring {
        return;
      }
      if awaitingAck {
        if now < acknowledgementDeadline {
          return;
        }
        if attempt >= MAXIMUM_ATTEMPTS {
          phase := Failed;
          failureResult := None;
          return;
        }
        awaitingAck := false;
      }
      var confirmation := attempt % 0x100;
      attempt := attempt + 1;
      awaitingAck := true;
      acknowledgementDeadline := now + ACKNOWLEDGEMENT_TIMEOUT;
      request := Some(IntervalRequest(vehicleSystemId.value, currentRequest, confirmation));
    }

    method OnCommandAck(ack: CommandAck, now: Time)
      requires Coherent(Model())
      modifies this
      ensures Coherent(Model())
      ensures Model() == Acknowledged(old(Model()), ack, now)
    {
      if phase != Configuring || !awaitingAck || ack.command != COMMAND_SET_MESSAGE_INTERVAL ||
         vehicleSystemId.None? || ack.sourceSystem != vehicleSystemId.value {
        return;
      }
      if ack.targetSystem != 0 && ack.targetSystem != vehicleSystemId.value {
        return;
      }
      if ack.targetComponent != 0 && ack.targetComponent != COMPANION_COMPONENT {
        return;
      }
      if ack.result == RESULT_IN_PROGRESS {
        acknowledgementDeadline := now + ACKNOWLEDGEMENT_TIMEOUT;
        return;
      }
      if ack.result != RESULT_ACCEPTED {
        phase := Failed;
        failureResult := Some(ack.result);
        awaitingAck := false;
        return;
      }
      completedRequests := completedRequests + 1;
      currentRequest := currentRequest + 1;
      attempt := 0;
      awaitingAck := false;
      failureResult := None;
      if currentRequest == |STREAMS| {
        phase := Active;
      }
    }

    /** A current stream is reported exactly while one is left to configure. */
    method Snapshot() returns (r: TelemetrySnapshot)
      requires Coherent(Model())
      ensures r == TelemetrySnapshot(
        phase, completedRequests, STREAM_COUNT,
        if phase == Active then None else Some(completedRequests), attempt, failureResult)
    {
      r := TelemetrySnapshot(phase, completedRequests, |STREAMS|, None, attempt, failureResult);
      if currentRequest < |STREAMS| {
        r := r.(currentStream := Some(currentRequest));
      }
    }
  }
}
