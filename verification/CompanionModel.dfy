/**
 The companion session protocol as a state machine: one step per message, one step per poll.
 `CompanionApplication` implements these steps on its fields; `SessionProtocol` and `Observation`
 prove what every run of them keeps.
 */
module CompanionModel {
  import opened Basics
  import opened VehicleLog
  import D = MavlinkDecoder
  import T = TelemetryStreamConfigurator
  import F = CompanionLinkFailsafe

  const HEARTBEAT_INTERVAL := 1 * SECOND
  const BATTERY_PARAMETER_RETRY := 2 * SECOND
  const FAILSAFE_PARAMETER_SPACING := 200 * MILLISECOND
  const REJECTED_FAILSAFE_RETRY := 2 * SECOND
  const ACCEPTED_FAILSAFE_REFRESH := 10 * SECOND
  const AUTOPILOT_VERSION_RETRY := 2 * SECOND
  const MAXIMUM_LINK_EVENTS := 8

  // ----- the transport

  /** The bytes on the wire and what the next write calls will accept; once exhausted, nothing. */
  datatype Link = Link(replies: seq<nat>, wire: seq<bv8>)

  function Min(a: nat, b: nat): nat {
    if a < b then a else b
  }

  /** Writes a frame piece by piece, giving up at the first write that accepts nothing. */
  function Written(link: Link, frame: seq<bv8>): (Link, bool)
    decreases |frame|
  {
    if frame == [] then (link, true)
    else if link.replies == [] then (link, false)
    else
      var count := Min(link.replies[0], |frame|);
      var next := Link(link.replies[1..], link.wire + frame[..count]);
      if count == 0 then (next, false) else Written(next, frame[count..])
  }

  // ----- requests

  datatype Request =
    | CompanionHeartbeat(system: nat)
    | SetInterval(interval: T.IntervalRequest)
    | RequestVersion(system: nat)
    | ReadThreshold(system: nat)
    | ReadFailsafe(system: nat, name: string)

  function TargetOf(r: Request): nat {
    match r
    case SetInterval(interval) => interval.system
    case _ => r.system
  }

  type Encoder = Request -> seq<bv8>

  /** One frame handed to the transport; `accepted` is the failsafe verdict at that time. */
  datatype Attempt = Attempt(request: Request, at: Time, sent: bool, accepted: bool)

  // ----- what is told to the operator

  datatype EventKind =
    | AckReceived(command: nat, result: nat, during: Option<nat>, source: nat)
    | IntervalRequested(stream: nat, attempt: nat, sent: bool)
    | ParameterRequested(name: string, sent: bool)
    | VersionRequested(sent: bool)
    | LinkLost
    | LinkUp(system: Option<nat>, component: Option<nat>)
    | VersionReported(metadata: Metadata)
    | ModeChanged(mode: nat)
    | ArmedChanged(armed: bool)

  datatype LinkEvent = LinkEvent(sequence: nat, at: Time, kind: EventKind)

  datatype Transition = Transition(previous: F.Phase, current: F.FailsafeSnapshot)

  /** An observer slot: empty, or everything its observer was given. */
  datatype Sink = Absent | Sink(events: seq<LinkEvent>, transitions: seq<Transition>)

  /** `told` and `changes` are the history of everything recorded. */
  datatype Journal = Journal(
    count: nat, ring: seq<LinkEvent>, previousPhase: F.Phase, sinks: seq<Sink>,
    told: seq<LinkEvent>, changes: seq<Transition>)

  function TellEvent(sink: Sink, e: LinkEvent): Sink {
    if sink.Absent? then sink else sink.(events := sink.events + [e])
  }

  function TellTransition(sink: Sink, t: Transition): Sink {
    if sink.Absent? then sink else sink.(transitions := sink.transitions + [t])
  }

  function Recorded(j: Journal, kind: EventKind, now: Time): Journal {
    var e := LinkEvent(j.count + 1, now, kind);
    var ring := j.ring + [e];
    j.(count := j.count + 1,
       ring := if |ring| > MAXIMUM_LINK_EVENTS then ring[1..] else ring,
       sinks := seq(|j.sinks|, i requires 0 <= i < |j.sinks| => TellEvent(j.sinks[i], e)),
       told := j.told + [e])
  }

  function PhaseObserved(j: Journal, shown: F.FailsafeSnapshot): Journal {
    if shown.phase == j.previousPhase then j
    else
      var t := Transition(j.previousPhase, shown);
      j.(previousPhase := shown.phase,
         sinks := seq(|j.sinks|, i requires 0 <= i < |j.sinks| => TellTransition(j.sinks[i], t)),
         changes := j.changes + [t])
  }

  // ----- the application

  /** Due times, and the next failsafe parameter to ask for. */
  datatype Timers = Timers(heartbeat: Time, version: Time, battery: Time, failsafe: Time, index: nat)

  /** What the last poll saw of the vehicle. */
  datatype LastSeen = LastSeen(
    connected: bool, mode: Option<nat>, armed: Option<bool>, metadata: bool, heartbeatActive: bool)

  /** `attempts` is the history of what was handed to the transport in the current session. */
  datatype App = App(
    log: Log, setup: T.Setup, failsafe: F.Failsafe, timers: Timers, seen: LastSeen, journal: Journal,
    link: Link, attempts: seq<Attempt>)

  function Initial(start: Link, sinks: seq<Sink>): App {
    App([], T.IDLE, F.INITIAL, Timers(0, 0, 0, 0, 0), LastSeen(false, None, None, false, false),
        Journal(0, [], F.WaitingForVehicle, sinks, [], []), start, [])
  }

  /** What a poll uses of a vehicle snapshot. */
  datatype Vehicle = Vehicle(
    connected: bool, systemId: Option<nat>, componentId: Option<nat>, mode: Option<nat>, armed: bool,
    metadata: Option<Metadata>, thresholdKnown: bool)

  function VehicleOf(s: VehicleSnapshot): Vehicle {
    Vehicle(s.connected, s.systemId, s.componentId, s.flightMode, s.armed, s.metadata, s.battery.armingVoltage.Some?)
  }

  function VehicleAt(log: Log, now: Time): Vehicle {
    VehicleOf(Show(Learned(log), now))
  }

  /** The vehicle a poll serves. */
  function Served(v: Vehicle): Option<nat> {
    if v.connected then v.systemId else None
  }

  // ----- messages

  function AckNoted(j: Journal, setup: T.Setup, ack: D.CommandAck, now: Time): Journal {
    var stream :=
      if ack.command == T.COMMAND_SET_MESSAGE_INTERVAL && setup.phase == T.Configuring && setup.current < T.STREAM_COUNT
      then Some(setup.current) else None;
    if ack.targetComponent == 0 || ack.targetComponent == T.COMPANION_COMPONENT
    then Recorded(j, AckReceived(ack.command, ack.result, stream, ack.sourceSystem), now)
    else j
  }

  function AckHandled(a: App, ack: D.CommandAck, now: Time): App {
    a.(journal := AckNoted(a.journal, a.setup, ack, now), setup := T.Acknowledged(a.setup, ack, now))
  }

  function ParameterHandled(a: App, system: nat, component: nat, id: string, value: Float): App {
    var failsafe := F.Informed(a.failsafe, system, component, id, value);
    a.(failsafe := failsafe, journal := PhaseObserved(a.journal, failsafe.shown))
  }

  function MessageHandled(a: App, m: D.Message, now: Time): App {
    var b := a.(log := D.Admit(a.log, m, now));
    match D.CallbackOf(a.log, m, now)
    case NoCallback => b
    case AckCallback(ack) => AckHandled(b, ack, now)
    case ParameterCallback(system, component, id, value) => ParameterHandled(b, system, component, id, value)
  }

  function Ingested(a: App, messages: seq<D.Message>, now: Time): App {
    if messages == [] then a
    else MessageHandled(Ingested(a, messages[..|messages| - 1], now), messages[|messages| - 1], now)
  }

  // ----- one poll

  /** History only: a session is a run of polls that serve one vehicle. */
  function SessionEntered(a: App, v: Vehicle): App {
    if Served(v) == a.setup.vehicle then a else a.(attempts := [])
  }

  function VehicleNoted(j: Journal, seen: LastSeen, v: Vehicle, now: Time): Journal {
    if !v.connected then (if seen.connected then Recorded(j, LinkLost, now) else j)
    else if !seen.connected then Recorded(j, LinkUp(v.systemId, v.componentId), now)
    else ChangesNoted(j, seen, v, now)
  }

  function MetadataNoted(j: Journal, seen: LastSeen, v: Vehicle, now: Time): Journal {
    if v.metadata.Some? && !seen.metadata then Recorded(j, VersionReported(v.metadata.value), now) else j
  }

  function ModeNoted(j: Journal, seen: LastSeen, v: Vehicle, now: Time): Journal {
    if v.mode.Some? && v.mode != seen.mode then Recorded(j, ModeChanged(v.mode.value), now) else j
  }

  function ArmedNoted(j: Journal, seen: LastSeen, v: Vehicle, now: Time): Journal {
    if seen.armed.Some? && v.armed != seen.armed.value then Recorded(j, ArmedChanged(v.armed), now) else j
  }

  function ChangesNoted(j: Journal, seen: LastSeen, v: Vehicle, now: Time): Journal {
    ArmedNoted(ModeNoted(MetadataNoted(j, seen, v, now), seen, v, now), seen, v, now)
  }

  function SeenNow(seen: LastSeen, v: Vehicle): LastSeen {
    if v.connected then LastSeen(true, v.mode, Some(v.armed), v.metadata.Some?, seen.heartbeatActive)
    else LastSeen(false, None, None, false, false)
  }

  function ConnectionUpdated(a: App, v: Vehicle, now: Time): App {
    var failsafe := F.Observed(a.failsafe, v.connected, v.systemId);
    a.(failsafe := failsafe,
       journal := VehicleNoted(PhaseObserved(a.journal, failsafe.shown), a.seen, v, now),
       timers := if v.connected && !a.seen.connected then a.timers.(index := 0, failsafe := now) else a.timers,
       seen := SeenNow(a.seen, v))
  }

  function Transmitted(encode: Encoder, a: App, request: Request, now: Time): (App, bool) {
    var (link, sent) := Written(a.link, encode(request));
    (a.(link := link,
        attempts := a.attempts + [Attempt(request, now, sent, a.failsafe.shown.phase == F.Accepted)]),
     sent)
  }

  function HeartbeatSent(encode: Encoder, a: App, v: Vehicle, now: Time): App {
    if now < a.timers.heartbeat then a
    else
      var b :=
        if v.connected && v.systemId.Some? then
          var (b, sent) := Transmitted(encode, a, CompanionHeartbeat(v.systemId.value), now);
          if sent then b.(seen := b.seen.(heartbeatActive := true)) else b
        else a;
      b.(timers := b.timers.(heartbeat := now + HEARTBEAT_INTERVAL))
  }

  function SetupUpdated(encode: Encoder, a: App, v: Vehicle, now: Time): App {
    var (setup, request) := T.Updated(a.setup, v.connected, v.systemId, now);
    var b := a.(setup := setup);
    if request.None? then b
    else
      var (c, sent) := Transmitted(encode, b, SetInterval(request.value), now);
      c.(journal := Recorded(c.journal, IntervalRequested(setup.current, setup.attempt, sent), now))
  }

  function NextFailsafeDue(index: nat, accepted: bool, now: Time): Time {
    now + if index + 1 < |F.PARAMETER_NAMES| then FAILSAFE_PARAMETER_SPACING
          else if accepted then ACCEPTED_FAILSAFE_REFRESH else REJECTED_FAILSAFE_RETRY
  }

  function FailsafeRequested(encode: Encoder, a: App, v: Vehicle, now: Time): App {
    if a.setup.phase != T.Active || v.systemId.None? || now < a.timers.failsafe ||
       a.timers.index >= |F.PARAMETER_NAMES| then a
    else
      var index := a.timers.index;
      var name := F.PARAMETER_NAMES[index];
      var (b, sent) := Transmitted(encode, a, ReadFailsafe(v.systemId.value, name), now);
      b.(journal := Recorded(b.journal, ParameterRequested(name, sent), now),
         timers := b.timers.(
           index := if index + 1 < |F.PARAMETER_NAMES| then index + 1 else 0,
           failsafe := NextFailsafeDue(index, b.failsafe.shown.phase == F.Accepted, now)))
  }

  function VersionAsked(encode: Encoder, a: App, v: Vehicle, now: Time): App {
    if a.setup.phase != T.Active || v.systemId.None? || v.metadata.Some? || now < a.timers.version then a
    else
      var (b, sent) := Transmitted(encode, a, RequestVersion(v.systemId.value), now);
      b.(journal := Recorded(b.journal, VersionRequested(sent), now),
         timers := b.timers.(version := now + AUTOPILOT_VERSION_RETRY))
  }

  function ThresholdAsked(encode: Encoder, a: App, v: Vehicle, now: Time): App {
    if a.setup.phase != T.Active || v.systemId.None? || v.thresholdKnown || now < a.timers.battery then a
    else
      var (b, sent) := Transmitted(encode, a, ReadThreshold(v.systemId.value), now);
      b.(journal := Recorded(b.journal, ParameterRequested(D.BATTERY_ARMING_PARAMETER, sent), now),
         timers := b.timers.(battery := now + BATTERY_PARAMETER_RETRY))
  }

  datatype PollInput = PollInput(messages: seq<D.Message>, now: Time)

  /** Everything after the messages were read. */
  function Driven(encode: Encoder, a: App, v: Vehicle, now: Time): App {
    var connected := ConnectionUpdated(SessionEntered(a, v), v, now);
    var ready := SetupUpdated(encode, HeartbeatSent(encode, connected, v, now), v, now);
    ThresholdAsked(encode, VersionAsked(encode, FailsafeRequested(encode, ready, v, now), v, now), v, now)
  }

  function Polled(encode: Encoder, a: App, input: PollInput): App {
    var ingested := Ingested(a, input.messages, input.now);
    Driven(encode, ingested, VehicleAt(ingested.log, input.now), input.now)
  }

  function Run(encode: Encoder, a: App, inputs: seq<PollInput>): App {
    if inputs == [] then a
    else Polled(encode, Run(encode, a, inputs[..|inputs| - 1]), inputs[|inputs| - 1])
  }
}
