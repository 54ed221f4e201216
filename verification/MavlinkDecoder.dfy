/**
 Which messages reach the vehicle observer. Framing is not modelled: a message is a value with its
 source system and component. `Ingested` is the log of everything a message run lets through.
 */
module MavlinkDecoder {
  import opened Basics
  import opened VehicleLog
  import VehicleState

  const AUTOPILOT_INVALID := 8
  const AUTOPILOT_COMPONENT := 1
  const UNKNOWN_MILLIVOLTS := 65535
  const BATTERY_ARMING_PARAMETER := "BATT_ARM_VOLT"

  datatype Body =
    | HeartbeatBody(vehicleType: nat, autopilot: nat, baseMode: bv8, customMode: nat, status: nat)
    | GpsRawInt(fix: nat, satellites: nat)
    | GlobalPositionInt(relativeAltitudeMm: int)
    | LocalPositionNed(north: Float, east: Float, down: Float)
    | AttitudeBody(roll: Float, pitch: Float, yaw: Float, yawRate: Float)
    | BatteryStatus(cells: seq<nat>, extraCells: seq<nat>, centiamperes: int, percent: int)
    | SysStatus(enabled: bv32, healthy: bv32, millivolts: nat, centiamperes: int, percent: int)
    | AutopilotVersionBody(packed: nat, capabilities: nat, board: nat, vendor: nat, product: nat)
    | ParamValue(rawId: string, value: Float)
    | StatusTextBody(severity: nat, rawText: string)
    | CommandAckBody(command: nat, result: nat, targetSystem: nat, targetComponent: nat)
    | OtherBody(messageId: nat)

  datatype Message = Message(system: nat, component: nat, body: Body)

  datatype Received = Received(message: Message, at: Time)

  datatype CommandAck = CommandAck(
    sourceSystem: nat, sourceComponent: nat, command: nat, result: nat, targetSystem: nat, targetComponent: nat)

  /** The handler a message is passed on to, apart from the vehicle observer. */
  datatype Callback =
    | NoCallback
    | AckCallback(ack: CommandAck)
    | ParameterCallback(sourceSystem: nat, sourceComponent: nat, id: string, value: Float)

  // ----- payload conversions

  predicate KnownCell(millivolts: nat) {
    0 < millivolts && millivolts != UNKNOWN_MILLIVOLTS
  }

  function PackVolts(cells: seq<nat>): real {
    if cells == [] then 0.0
    else
      var last := cells[|cells| - 1];
      PackVolts(cells[..|cells| - 1]) + if KnownCell(last) then last as real / 1000.0 else 0.0
  }

  /** The pack voltage is the sum over the cells that report one. */
  function PackVoltage(cells: seq<nat>): Option<Float> {
    if exists i :: 0 <= i < |cells| && KnownCell(cells[i]) then Some(Finite(PackVolts(cells))) else None
  }

  function MillivoltsToVolts(millivolts: nat): Option<Float> {
    if KnownCell(millivolts) then Some(Finite(millivolts as real / 1000.0)) else None
  }

  function CentiamperesToAmperes(value: int): Option<Float> {
    if value < 0 then None else Some(Finite(value as real / 100.0))
  }

  function RemainingPercent(value: int): Option<int> {
    if value < 0 then None else Some(value)
  }

  function PackedByte(packed: nat, divisor: nat): nat
    requires divisor > 0
  {
    packed / divisor % 0x100
  }

  function MetadataFrom(packed: nat, capabilities: nat, board: nat, vendor: nat, product: nat): Metadata {
    Metadata(PackedByte(packed, 0x100_0000), PackedByte(packed, 0x1_0000), PackedByte(packed, 0x100),
             PackedByte(packed, 1), capabilities, board, vendor, product)
  }

  /** What a message tells the vehicle observer, once it is let through. */
  function EventOf(m: Message): Option<Event> {
    match m.body
    case HeartbeatBody(vehicleType, autopilot, baseMode, customMode, status) =>
      Some(Heartbeat(m.system, m.component, vehicleType, autopilot, baseMode, customMode, status))
    case GpsRawInt(fix, satellites) => Some(Gps(fix, satellites))
    case GlobalPositionInt(altitude) => Some(GlobalPosition(altitude))
    case LocalPositionNed(north, east, down) => Some(LocalPosition(north, east, down))
    case AttitudeBody(roll, pitch, yaw, yawRate) => Some(Attitude(roll, pitch, yaw, yawRate))
    case BatteryStatus(cells, extra, centiamperes, percent) =>
      Some(Battery(PackVoltage(cells + extra), CentiamperesToAmperes(centiamperes), RemainingPercent(percent)))
    case SysStatus(enabled, healthy, millivolts, centiamperes, percent) =>
      Some(SystemStatus(enabled, healthy, MillivoltsToVolts(millivolts),
                        CentiamperesToAmperes(centiamperes), RemainingPercent(percent)))
    case AutopilotVersionBody(packed, capabilities, board, vendor, product) =>
      if m.component == AUTOPILOT_COMPONENT
      then Some(AutopilotVersion(MetadataFrom(packed, capabilities, board, vendor, product)))
      else None
    case ParamValue(rawId, value) =>
      if UntilNul(rawId) == BATTERY_ARMING_PARAMETER then Some(ArmingVoltage(value)) else None
    case StatusTextBody(severity, rawText) => Some(StatusText(severity, UntilNul(rawText)))
    case CommandAckBody(_, _, _, _) => None
    case OtherBody(_) => None
  }

  /** The log entry of a message that is let through, if it has one. */
  function Told(m: Message, now: Time): Log {
    if EventOf(m).Some? then [Stamped(now, EventOf(m).value)] else []
  }

  // ----- which messages are let through

  predicate Linked(last: Option<Stamped>, now: Time) {
    last.Some? && now - last.value.at <= HEARTBEAT_TIMEOUT
  }

  predicate FromVehicle(last: Option<Stamped>, m: Message) {
    last.Some? && last.value.event.Heartbeat? &&
    m.system == last.value.event.system && m.component == last.value.event.component
  }

  /** A heartbeat may start a session only in silence; everything else needs a live session of its sender. */
  predicate Admits(last: Option<Stamped>, m: Message, now: Time) {
    if m.body.HeartbeatBody?
    then m.body.autopilot != AUTOPILOT_INVALID && m.component == AUTOPILOT_COMPONENT &&
         (Linked(last, now) ==> FromVehicle(last, m))
    else Linked(last, now) && FromVehicle(last, m)
  }

  function Admit(log: Log, m: Message, now: Time): Log {
    if Admits(LastHeartbeat(log), m, now) && EventOf(m).Some? then log + [Stamped(now, EventOf(m).value)] else log
  }

  function CallbackOf(log: Log, m: Message, now: Time): Callback {
    if !Admits(LastHeartbeat(log), m, now) then NoCallback
    else match m.body
      case ParamValue(rawId, value) => ParameterCallback(m.system, m.component, UntilNul(rawId), value)
      case CommandAckBody(command, result, targetSystem, targetComponent) =>
        AckCallback(CommandAck(m.system, m.component, command, result, targetSystem, targetComponent))
      case _ => NoCallback
  }

  /** The log left by a whole run of messages. */
  function Ingested(trace: seq<Received>): Log {
    if trace == [] then []
    else var last := |trace| - 1; Admit(Ingested(trace[..last]), trace[last].message, trace[last].at)
  }

  /** For every log entry, the position of the message that caused it. */
  function Origins(trace: seq<Received>): seq<nat> {
    if trace == [] then []
    else
      var last := |trace| - 1;
      if |Ingested(trace)| > |Ingested(trace[..last])| then Origins(trace[..last]) + [last]
      else Origins(trace[..last])
  }

  // ----- no blending

  lemma LastHeartbeatAppend(log: Log, s: Stamped)
    ensures LastHeartbeat(log + [s]) == if s.event.Heartbeat? then Some(s) else LastHeartbeat(log)
  {
    assert (log + [s])[..|log|] == log;
  }

  lemma SessionStartAppend(log: Log, s: Stamped)
    ensures SessionStart(log + [s]) == if Breaks(LastHeartbeat(log), s) then |log| else SessionStart(log)
  {
    assert (log + [s])[..|log|] == log;
  }

  ghost predicate CausedBy(s: Stamped, cause: Received) {
    s.at == cause.at && EventOf(cause.message) == Some(s.event)
  }

  ghost predicate Explains(origins: seq<nat>, log: Log, trace: seq<Received>) {
    |origins| == |log| &&
    (forall k :: 0 <= k < |origins| ==> origins[k] < |trace| && CausedBy(log[k], trace[origins[k]])) &&
    (forall j, k :: 0 <= j < k < |origins| ==> origins[j] < origins[k])
  }

  /** The log is the run with some messages left out: entry for entry, in order. */
  lemma {:induction false} OriginsExplainLog(trace: seq<Received>)
    ensures Explains(Origins(trace), Ingested(trace), trace)
  {
    if trace != [] {
      var last := |trace| - 1;
      OriginsExplainLog(trace[..last]);
      var log, m, now := Ingested(trace[..last]), trace[last].message, trace[last].at;
      ExplainsLonger(Origins(trace[..last]), log, trace, last);
      if |Ingested(trace)| > |log| {
        ExplainsMore(Origins(trace[..last]), log, trace, last, Stamped(now, EventOf(m).value));
      }
    }
  }

  lemma ExplainsLonger(origins: seq<nat>, log: Log, trace: seq<Received>, last: nat)
    requires last == |trace| - 1 && Explains(origins, log, trace[..last])
    ensures Explains(origins, log, trace)
    ensures forall k :: 0 <= k < |origins| ==> origins[k] < last
  {
    assert forall i :: 0 <= i < last ==> trace[..last][i] == trace[i];
  }

  lemma ExplainsMore(origins: seq<nat>, log: Log, trace: seq<Received>, last: nat, s: Stamped)
    requires last < |trace| && Explains(origins, log, trace) && CausedBy(s, trace[last])
    requires forall k :: 0 <= k < |origins| ==> origins[k] < last
    ensures Explains(origins + [last], log + [s], trace)
  {
  }

  /** Entries `start` on came from the autopilot of the vehicle that `last` identifies. */
  ghost predicate OwnFrom(start: nat, origins: seq<nat>, trace: seq<Received>, last: Option<Stamped>) {
    forall k :: start <= k < |origins| ==>
      origins[k] < |trace| && IsOwn(trace[origins[k]].message, last)
  }

  predicate IsOwn(m: Message, last: Option<Stamped>) {
    m.component == AUTOPILOT_COMPONENT && FromVehicle(last, m)
  }

  lemma OwnStays(start: nat, origins: seq<nat>, trace: seq<Received>, longer: seq<Received>, last: Option<Stamped>)
    requires OwnFrom(start, origins, trace, last) && trace <= longer
    ensures OwnFrom(start, origins, longer, last)
  {
  }

  lemma OwnMore(start: nat, origins: seq<nat>, trace: seq<Received>, last: Option<Stamped>, origin: nat)
    requires OwnFrom(start, origins, trace, last) && origin < |trace| && IsOwn(trace[origin].message, last)
    ensures OwnFrom(start, origins + [origin], trace, last)
  {
  }

  /** A later heartbeat of the same vehicle identifies the same entries. */
  lemma OwnAfterHeartbeat(start: nat, origins: seq<nat>, trace: seq<Received>, last: Option<Stamped>, s: Stamped)
    requires OwnFrom(start, origins, trace, last) && s.event.Heartbeat? && last.Some? && last.value.event.Heartbeat?
    requires !Breaks(last, s)
    ensures OwnFrom(start, origins, trace, Some(s))
  {
  }

  /** The invariant of `SessionHasOneSource`. */
  ghost predicate OneSource(log: Log, origins: seq<nat>, trace: seq<Received>) {
    |origins| == |log| && (log != [] ==> LastHeartbeat(log).Some?) && FromAutopilot(LastHeartbeat(log)) &&
    OwnFrom(SessionStart(log), origins, trace, LastHeartbeat(log))
  }

  /** One admitted message keeps the session to one source, or opens a session of its own. */
  lemma AdmittedIsOwn(log: Log, origins: seq<nat>, trace: seq<Received>, origin: nat, now: Time)
    requires OneSource(log, origins, trace) && origin < |trace|
    requires var m := trace[origin].message; Admits(LastHeartbeat(log), m, now) && EventOf(m).Some?
    ensures OneSource(log + [Stamped(now, EventOf(trace[origin].message).value)], origins + [origin], trace)
  {
    var m := trace[origin].message;
    var last, s := LastHeartbeat(log), Stamped(now, EventOf(m).value);
    LastHeartbeatAppend(log, s);
    SessionStartAppend(log, s);
    if !s.event.Heartbeat? {
      OwnMore(SessionStart(log), origins, trace, last, origin);
    } else if Breaks(last, s) || log == [] {
      assert OwnFrom(|log|, origins, trace, Some(s));
      OwnMore(|log|, origins, trace, Some(s), origin);
    } else {
      OwnAfterHeartbeat(SessionStart(log), origins, trace, last, s);
      OwnMore(SessionStart(log), origins, trace, Some(s), origin);
    }
  }

  lemma {:induction false} SessionHasOneSource(trace: seq<Received>)
    ensures OneSource(Ingested(trace), Origins(trace), trace)
  {
    if trace != [] {
      var last := |trace| - 1;
      var before := Ingested(trace[..last]);
      SessionHasOneSource(trace[..last]);
      OwnStays(SessionStart(before), Origins(trace[..last]), trace[..last], trace, LastHeartbeat(before));
      var m, now := trace[last].message, trace[last].at;
      if Admits(LastHeartbeat(before), m, now) && EventOf(m).Some? {
        AdmittedIsOwn(before, Origins(trace[..last]), trace, last, now);
      }
    }
  }

  /**
   No blending: whatever the run, every entry of the current session came from a message of the
   very system and component whose heartbeat identifies the vehicle, and that component is the
   autopilot.
   */
  lemma SessionEntryIsOwn(trace: seq<Received>, k: nat)
    requires SessionStart(Ingested(trace)) <= k < |Origins(trace)|
    ensures Origins(trace)[k] < |trace|
    ensures trace[Origins(trace)[k]].message.component == AUTOPILOT_COMPONENT
    ensures FromVehicle(LastHeartbeat(Ingested(trace)), trace[Origins(trace)[k]].message)
  {
    SessionHasOneSource(trace);
  }

  lemma {:induction false} HeartbeatComponent(trace: seq<Received>)
    ensures FromAutopilot(LastHeartbeat(Ingested(trace)))
  {
    if trace != [] {
      var last := |trace| - 1;
      HeartbeatComponent(trace[..last]);
      AdmitKeepsAutopilot(Ingested(trace[..last]), trace[last].message, trace[last].at);
    }
  }

  predicate FromAutopilot(h: Option<Stamped>) {
    h.Some? && h.value.event.Heartbeat? ==> h.value.event.component == AUTOPILOT_COMPONENT
  }

  lemma AdmitKeepsAutopilot(log: Log, m: Message, now: Time)
    requires FromAutopilot(LastHeartbeat(log))
    ensures FromAutopilot(LastHeartbeat(Admit(log, m, now)))
  {
    if Admit(log, m, now) != log {
      LastHeartbeatAppend(log, Stamped(now, EventOf(m).value));
    }
  }

  /**
   Everything a snapshot can show of `kind` was measured by one message of the identified vehicle's
   autopilot, received in the current session.
   */
  lemma ShownIsOwn(trace: seq<Received>, kind: Kind) returns (cause: nat)
    requires Known(Learned(Ingested(trace)), kind).Some?
    ensures cause < |trace|
    ensures FromVehicle(LastHeartbeat(Ingested(trace)), trace[cause].message)
    ensures trace[cause].message.component == AUTOPILOT_COMPONENT
    ensures exists k :: SessionStart(Ingested(trace)) <= k < |Origins(trace)| && Origins(trace)[k] == cause
    ensures EventOf(trace[cause].message).Some? && Carries(kind, EventOf(trace[cause].message).value)
    ensures Known(Learned(Ingested(trace)), kind).value ==
      StampedReading(trace[cause].at, ReadingOf(kind, EventOf(trace[cause].message).value))
  {
    var i := LatestPosition(Ingested(trace), kind);
    OriginsExplainLog(trace);
    SessionHasOneSource(trace);
    cause := Origins(trace)[i];
    assert CausedBy(Ingested(trace)[i], trace[cause]);
  }

  /**
   Behind the identity filter a session breaks only after silence: the change-of-controller test
   of the observer never fires on its own.
   */
  lemma {:induction false} SessionsBreakOnlyInSilence(trace: seq<Received>, k: nat)
    requires k < |Ingested(trace)|
    requires Breaks(LastHeartbeat(Ingested(trace)[..k]), Ingested(trace)[k])
    ensures Ingested(trace)[k].at - LastHeartbeat(Ingested(trace)[..k]).value.at > HEARTBEAT_TIMEOUT
  {
    var last := |trace| - 1;
    var before := Ingested(trace[..last]);
    if k < |before| {
      assert Ingested(trace)[..k] == before[..k];
      SessionsBreakOnlyInSilence(trace[..last], k);
    } else {
      assert Ingested(trace)[..k] == before;
    }
  }

  /** The vehicle's identity, if any. */
  function Identity(log: Log): Option<(nat, nat)> {
    var h := LastHeartbeat(log);
    if h.None? then None else Some((h.value.event.system, h.value.event.component))
  }

  /**
   While every message arrives on a live link the identity stays what it was, whatever other
   systems send.
   */
  lemma {:induction false} IdentityHeldWhileLinked(trace: seq<Received>, start: nat)
    requires start < |trace|
    requires forall i :: start <= i < |trace| ==> LinkedAt(trace, i)
    ensures Identity(Ingested(trace)) == Identity(Ingested(trace[..start])) != None
    decreases |trace|
  {
    var last := |trace| - 1;
    var shorter := trace[..last];
    assert LinkedAt(trace, last);
    AdmitKeepsIdentity(Ingested(shorter), trace[last].message, trace[last].at);
    if start < last {
      forall i | start <= i < last ensures LinkedAt(shorter, i) {
        assert LinkedAt(trace, i) && shorter[..i] == trace[..i];
      }
      IdentityHeldWhileLinked(shorter, start);
      assert shorter[..start] == trace[..start];
    }
  }

  /** Message `i` arrives on a live link. */
  ghost predicate LinkedAt(trace: seq<Received>, i: nat)
    requires i < |trace|
  {
    Linked(LastHeartbeat(Ingested(trace[..i])), trace[i].at)
  }

  lemma AdmitKeepsIdentity(log: Log, m: Message, now: Time)
    requires Linked(LastHeartbeat(log), now)
    ensures Identity(Admit(log, m, now)) == Identity(log) != None
  {
    if Admit(log, m, now) != log {
      LastHeartbeatAppend(log, Stamped(now, EventOf(m).value));
    }
  }

  // ----- the decoder

  class MavlinkDecoder {
    const state: VehicleState.VehicleState

    constructor (state: VehicleState.VehicleState)
      ensures this.state == state
    {
      this.state := state;
    }

    /** Dispatches one framed message; the result is the callback the source fires. */
    method HandleMessage(m: Message, now: Time) returns (callback: Callback)
      requires state.Valid() && state.clock <= now
      modifies state
      ensures state.Valid() && state.clock == now
      ensures state.log == Admit(old(state.log), m, now)
      ensures callback == CallbackOf(old(state.log), m, now)
    {
      callback := NoCallback;
      if m.body.HeartbeatBody? {
        HandleHeartbeat(m, now);
        return;
      }
      var connected, own := CompareSource(m, now);
      if connected && own {
        if m.body.GpsRawInt? || m.body.GlobalPositionInt? || m.body.LocalPositionNed? || m.body.AttitudeBody? {
          HandlePosition(m, now);
        } else if m.body.BatteryStatus? || m.body.SysStatus? || m.body.AutopilotVersionBody? {
          HandleStatus(m, now);
        } else {
          callback := HandleOther(m, now);
        }
      }
    }

    /** Takes a snapshot and compares the sender of a message with the identified vehicle. */
    method CompareSource(m: Message, now: Time) returns (connected: bool, own: bool)
      requires state.Valid() && state.clock <= now
      modifies state
      ensures state.Valid() && state.clock == now && state.log == old(state.log)
      ensures connected == Linked(LastHeartbeat(state.log), now)
      ensures own == FromVehicle(LastHeartbeat(state.log), m)
    {
      LearnedHeartbeat(state.log);
      var vehicle := state.Snapshot(now);
      connected := vehicle.connected;
      own := Some(m.system) == vehicle.systemId && Some(m.component) == vehicle.componentId;
    }

    method HandleHeartbeat(m: Message, now: Time)
      requires m.body.HeartbeatBody? && state.Valid() && state.clock <= now
      modifies state
      ensures state.Valid() && state.clock == now
      ensures state.log == Admit(old(state.log), m, now)
    {
      var connected, own := CompareSource(m, now);
      if m.body.autopilot == AUTOPILOT_INVALID || m.component != AUTOPILOT_COMPONENT {
        return;
      }
      if connected && !own {
        return;
      }
      state.OnHeartbeat(m.system, m.component, m.body.vehicleType, m.body.autopilot,
                        m.body.baseMode, m.body.customMode, m.body.status, now);
    }

    method HandlePosition(m: Message, now: Time)
      requires m.body.GpsRawInt? || m.body.GlobalPositionInt? || m.body.LocalPositionNed? || m.body.AttitudeBody?
      requires state.Valid() && state.clock <= now && EventOf(m).Some?
      modifies state
      ensures state.Valid() && state.clock == now
      ensures state.log == old(state.log) + [Stamped(now, EventOf(m).value)]
    {
      match m.body
      case GpsRawInt(fix, satellites) => state.OnGps(fix, satellites, now);
      case GlobalPositionInt(relativeAltitudeMm) => state.OnGlobalPosition(relativeAltitudeMm, now);
      case LocalPositionNed(north, east, down) => state.OnLocalPosition(north, east, down, now);
      case AttitudeBody(roll, pitch, yaw, yawRate) => state.OnAttitude(roll, pitch, yaw, yawRate, now);
    }

    method HandleStatus(m: Message, now: Time)
      requires m.body.BatteryStatus? || m.body.SysStatus? || m.body.AutopilotVersionBody?
      requires state.Valid() && state.clock <= now
      modifies state
      ensures state.Valid() && state.clock >= old(state.clock) && state.clock <= now
      ensures state.log == old(state.log) + Told(m, now)
    {
      if m.body.BatteryStatus? {
        HandleBattery(m, now);
      } else if m.body.SysStatus? {
        HandleSystemStatus(m, now);
      } else {
        HandleAutopilotVersion(m, now);
      }
    }

    method HandleBattery(m: Message, now: Time)
      requires m.body.BatteryStatus? && state.Valid() && state.clock <= now
      modifies state
      ensures state.Valid() && state.clock == now && state.log == old(state.log) + Told(m, now)
    {
      var voltage := BatteryVoltage(m.body.cells, m.body.extraCells);
      state.OnBattery(voltage, CentiamperesToAmperes(m.body.centiamperes), RemainingPercent(m.body.percent), now);
    }

    method HandleSystemStatus(m: Message, now: Time)
      requires m.body.SysStatus? && state.Valid() && state.clock <= now
      modifies state
      ensures state.Valid() && state.clock == now && state.log == old(state.log) + Told(m, now)
    {
      state.OnSystemStatus(m.body.enabled, m.body.healthy, MillivoltsToVolts(m.body.millivolts),
                           CentiamperesToAmperes(m.body.centiamperes), RemainingPercent(m.body.percent), now);
    }

    method HandleAutopilotVersion(m: Message, now: Time)
      requires m.body.AutopilotVersionBody? && state.Valid() && state.clock <= now
      modifies state
      ensures state.Valid() && state.clock >= old(state.clock) && state.clock <= now
      ensures state.log == old(state.log) + Told(m, now)
    {
      if m.component == AUTOPILOT_COMPONENT {
        state.OnAutopilotMetadata(
          MetadataFrom(m.body.packed, m.body.capabilities, m.body.board, m.body.vendor, m.body.product), now);
      }
    }

    method HandleOther(m: Message, now: Time) returns (callback: Callback)
      requires m.body.ParamValue? || m.body.StatusTextBody? || m.body.CommandAckBody? || m.body.OtherBody?
      requires state.Valid() && state.clock <= now
      requires Admits(LastHeartbeat(state.log), m, now)
      modifies state
      ensures state.Valid() && state.clock >= old(state.clock) && state.clock <= now
      ensures state.log == old(state.log) + Told(m, now)
      ensures callback == CallbackOf(old(state.log), m, now)
    {
      callback := NoCallback;
      if m.body.ParamValue? {
        callback := HandleParameterValue(m, now);
      } else if m.body.StatusTextBody? {
        state.OnStatusText(m.body.severity, UntilNul(m.body.rawText), now);
      } else if m.body.CommandAckBody? {
        callback := AckCallback(CommandAck(
          m.system, m.component, m.body.command, m.body.result, m.body.targetSystem, m.body.targetComponent));
      }
    }

    method HandleParameterValue(m: Message, now: Time) returns (callback: Callback)
      requires m.body.ParamValue? && state.Valid() && state.clock <= now
      modifies state
      ensures state.Valid() && state.clock >= old(state.clock) && state.clock <= now
      ensures state.log == old(state.log) + Told(m, now)
      ensures callback == ParameterCallback(m.system, m.component, UntilNul(m.body.rawId), m.body.value)
    {
      var id := UntilNul(m.body.rawId);
      if id == BATTERY_ARMING_PARAMETER {
        state.OnBatteryArmingVoltage(m.body.value, now);
      }
      callback := ParameterCallback(m.system, m.component, id, m.body.value);
    }
  }

  /** Adds up the known cells of both cell lists. */
  method BatteryVoltage(cells: seq<nat>, extraCells: seq<nat>) returns (voltage: Option<Float>)
    ensures voltage == PackVoltage(cells + extraCells)
  {
    var total, hasVoltage := 0.0, false;
    var all := cells + extraCells;
    for i := 0 to |all|
      invariant total == PackVolts(all[..i])
      invariant hasVoltage <==> exists k :: 0 <= k < i && KnownCell(all[k])
    {
      assert all[..i + 1][..i] == all[..i];
      if all[i] > 0 && all[i] != UNKNOWN_MILLIVOLTS {
        total := total + all[i] as real / 1000.0;
        hasVoltage := true;
        assert KnownCell(all[i]);
      }
    }
    assert all[..|all|] == all;
    voltage := if hasVoltage then Some(Finite(total)) else None;
  }
}
