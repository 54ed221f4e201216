/** The companion application: one object per collaborator, polled with the messages read so far. */
module CompanionApplication {
  import opened Basics
  import opened CompanionModel
  import V = VehicleState
  import D = MavlinkDecoder
  import T = TelemetryStreamConfigurator
  import F = CompanionLinkFailsafe

  /** The transport's write side: `replies` is what the next writes will accept, zero once exhausted. */
  class Transport {
    var replies: seq<nat>
    var wire: seq<bv8>

    constructor (replies: seq<nat>)
      ensures this.replies == replies && wire == []
    {
      this.replies, wire := replies, [];
    }

    method Write(source: seq<bv8>) returns (count: nat)
      modifies this
      ensures count <= |source| && wire == old(wire) + source[..count]
      ensures if old(replies) == [] then count == 0 && replies == []
              else count == Min(old(replies)[0], |source|) && replies == old(replies)[1..]
    {
      count := 0;
      if replies != [] {
        count := Min(replies[0], |source|);
        replies := replies[1..];
      }
      wire := wire + source[..count];
    }
  }

  method WriteAll(transport: Transport, frame: seq<bv8>) returns (sent: bool)
    modifies transport
    ensures (Link(transport.replies, transport.wire), sent) ==
      Written(old(Link(transport.replies, transport.wire)), frame)
  {
    ghost var before := Link(transport.replies, transport.wire);
    var offset := 0;
    while offset < |frame|
      invariant offset <= |frame|
      invariant Written(before, frame) == Written(Link(transport.replies, transport.wire), frame[offset..])
    {
      var rest := frame[offset..];
      ghost var wire := transport.wire;
      var written := transport.Write(rest);
      if written == 0 {
        assert wire + rest[..0] == wire;
        return false;
      }
      assert rest[written..] == frame[offset + written..];
      offset := offset + written;
    }
    return true;
  }

  method TellEventToAll(before: seq<Sink>, event: LinkEvent) returns (sinks: seq<Sink>)
    ensures sinks == seq(|before|, i requires 0 <= i < |before| => TellEvent(before[i], event))
  {
    sinks := before;
    for i := 0 to |before|
      invariant |sinks| == |before|
      invariant forall k :: 0 <= k < |before| ==> sinks[k] == if k < i then TellEvent(before[k], event) else before[k]
    {
      if sinks[i].Sink? {
        sinks := sinks[i := sinks[i].(events := sinks[i].events + [event])];
      }
    }
  }

  method TellTransitionToAll(before: seq<Sink>, transition: Transition) returns (sinks: seq<Sink>)
    ensures sinks == seq(|before|, i requires 0 <= i < |before| => TellTransition(before[i], transition))
  {
    sinks := before;
    for i := 0 to |before|
      invariant |sinks| == |before|
      invariant forall k :: 0 <= k < |before| ==>
        sinks[k] == if k < i then TellTransition(before[k], transition) else before[k]
    {
      if sinks[i].Sink? {
        sinks := sinks[i := sinks[i].(transitions := sinks[i].transitions + [transition])];
      }
    }
  }

  class CompanionApplication {
    const encode: Encoder
    const transport: Transport
    const vehicleState: V.VehicleState
    const decoder: D.MavlinkDecoder
    const telemetry: T.TelemetryStreamConfigurator
    const failsafe: F.CompanionLinkFailsafe

    var nextHeartbeat: Time
    var nextVersion: Time
    var nextBattery: Time
    var nextFailsafe: Time
    var failsafeIndex: nat
    var wasConnected: bool
    var previousMode: Option<nat>
    var previousArmed: Option<bool>
    var metadataKnown: bool
    var heartbeatActive: bool
    var eventSequence: nat
    var linkEvents: seq<LinkEvent>
    var previousPhase: F.Phase
    var sinks: seq<Sink>

    ghost var told: seq<LinkEvent>
    ghost var changes: seq<Transition>
    ghost var attempts: seq<Attempt>

    ghost function Events(): Journal
      reads this
    {
      Journal(eventSequence, linkEvents, previousPhase, sinks, told, changes)
    }

    ghost function Due(): Timers
      reads this
    {
      Timers(nextHeartbeat, nextVersion, nextBattery, nextFailsafe, failsafeIndex)
    }

    ghost function Seen(): LastSeen
      reads this
    {
      LastSeen(wasConnected, previousMode, previousArmed, metadataKnown, heartbeatActive)
    }

    ghost function Model(): App
      reads this, transport, vehicleState, telemetry, failsafe
    {
      App(vehicleState.log, telemetry.Model(), failsafe.Model(), Due(), Seen(), Events(),
          Link(transport.replies, transport.wire), attempts)
    }

    ghost predicate Valid()
      reads this, telemetry
    {
      decoder.state == vehicleState && T.Coherent(telemetry.Model()) && failsafeIndex < |F.PARAMETER_NAMES|
    }

    constructor (transport: Transport, encode: Encoder, sinks: seq<Sink>, ghost start: Time)
      ensures Valid() && this.transport == transport && this.encode == encode
      ensures Model() == Initial(Link(transport.replies, transport.wire), sinks)
      ensures vehicleState.Valid() && vehicleState.clock == start
      ensures fresh(vehicleState) && fresh(telemetry) && fresh(failsafe)
    {
      this.transport, this.encode, this.sinks := transport, encode, sinks;
      var state := new V.VehicleState(start);
      vehicleState := state;
      decoder := new D.MavlinkDecoder(state);
      telemetry := new T.TelemetryStreamConfigurator();
      failsafe := new F.CompanionLinkFailsafe();
      nextHeartbeat, nextVersion, nextBattery, nextFailsafe, failsafeIndex := 0, 0, 0, 0, 0;
      wasConnected, previousMode, previousArmed, metadataKnown, heartbeatActive := false, None, None, false, false;
      eventSequence, linkEvents, previousPhase := 0, [], F.WaitingForVehicle;
      told, changes, attempts := [], [], [];
    }

    // ----- observers

    method RecordEvent(kind: EventKind, now: Time)
      modifies this`eventSequence, this`linkEvents, this`sinks, this`told
      ensures Events() == Recorded(old(Events()), kind, now)
    {
      eventSequence := eventSequence + 1;
      var event := LinkEvent(eventSequence, now, kind);
      linkEvents := linkEvents + [event];
      told := told + [event];
      sinks := TellEventToAll(sinks, event);
      if |linkEvents| > MAXIMUM_LINK_EVENTS {
        linkEvents := linkEvents[1..];
      }
    }

    method ObserveFailsafePhase()
      modifies this`previousPhase, this`sinks, this`changes
      ensures Events() == PhaseObserved(old(Events()), failsafe.snapshot)
    {
      var current := failsafe.snapshot;
      if current.phase == previousPhase {
        return;
      }
      var transition := Transition(previousPhase, current);
      sinks := TellTransitionToAll(sinks, transition);
      changes := changes + [transition];
      previousPhase := current.phase;
    }

    // ----- messages

    /** Records an ACK addressed to the companion, with the stream it may answer. */
    method RecordAck(ack: D.CommandAck, now: Time)
      requires Valid()
      modifies this`eventSequence, this`linkEvents, this`sinks, this`told
      ensures Events() == AckNoted(old(Events()), telemetry.Model(), ack, now)
    {
      if ack.targetComponent == 0 || ack.targetComponent == T.COMPANION_COMPONENT {
        var before := telemetry.Snapshot();
        var during := None;
        if ack.command == T.COMMAND_SET_MESSAGE_INTERVAL && before.phase == T.Configuring &&
           before.currentStream.Some? {
          during := before.currentStream;
        }
        RecordEvent(AckReceived(ack.command, ack.result, during, ack.sourceSystem), now);
      }
    }

    method OnCommandAck(ack: D.CommandAck, now: Time)
      requires Valid()
      modifies this, telemetry
      ensures Valid() && Model() == AckHandled(old(Model()), ack, now)
    {
      RecordAck(ack, now);
      telemetry.OnCommandAck(ack, now);
    }

    method OnParameter(system: nat, component: nat, id: string, value: Float)
      requires Valid()
      modifies this, failsafe
      ensures Valid() && Model() == ParameterHandled(old(Model()), system, component, id, value)
    {
      failsafe.OnParameter(system, component, id, value);
      ObserveFailsafePhase();
    }

    method OnMessage(m: D.Message, now: Time)
      requires Valid() && vehicleState.Valid() && vehicleState.clock <= now
      modifies this, vehicleState, telemetry, failsafe
      ensures Valid() && vehicleState.Valid() && vehicleState.clock == now
      ensures Model() == MessageHandled(old(Model()), m, now)
    {
      var callback := decoder.HandleMessage(m, now);
      match callback
      case NoCallback =>
      case AckCallback(ack) => OnCommandAck(ack, now);
      case ParameterCallback(system, component, id, value) => OnParameter(system, component, id, value);
    }

    method Ingest(messages: seq<D.Message>, now: Time)
      requires Valid() && vehicleState.Valid() && vehicleState.clock <= now
      modifies this, vehicleState, telemetry, failsafe
      ensures Valid() && vehicleState.Valid() && vehicleState.clock <= now
      ensures Model() == Ingested(old(Model()), messages, now)
    {
      for i := 0 to |messages|
        invariant Valid() && vehicleState.Valid() && vehicleState.clock <= now
        invariant Model() == Ingested(old(Model()), messages[..i], now)
      {
        OnMessage(messages[i], now);
        assert messages[..i + 1][..i] == messages[..i];
      }
      assert messages[..|messages|] == messages;
    }

    // ----- the wire

    /** Hands the frame over piece by piece until all is written or a write accepts nothing. */
    method WriteFrame(request: Request, now: Time) returns (sent: bool)
      modifies transport, this`attempts
      ensures (Model(), sent) == Transmitted(encode, old(Model()), request, now)
    {
      sent := WriteAll(transport, encode(request));
      attempts := attempts + [Attempt(request, now, sent, failsafe.snapshot.phase == F.Accepted)];
    }

    // ----- one poll

    method ObserveVehicle(v: Vehicle, now: Time)
      modifies this`eventSequence, this`linkEvents, this`sinks, this`told,
               this`wasConnected, this`previousMode, this`previousArmed, this`metadataKnown
      ensures Events() == VehicleNoted(old(Events()), old(Seen()), v, now)
      ensures Seen() == (if v.connected then SeenNow(old(Seen()), v)
                         else LastSeen(false, None, None, false, heartbeatActive))
    {
      if !v.connected {
        if wasConnected {
          RecordEvent(LinkLost, now);
        }
        wasConnected := false;
        previousMode := None;
        previousArmed := None;
        metadataKnown := false;
        return;
      }
      if !wasConnected {
        RecordEvent(LinkUp(v.systemId, v.componentId), now);
        wasConnected := true;
        previousMode := v.mode;
        previousArmed := Some(v.armed);
        metadataKnown := v.metadata.Some?;
        return;
      }
      ObserveChanges(v, now);
    }

    /** What changed since the last poll of a vehicle that was already connected. */
    method ObserveChanges(v: Vehicle, now: Time)
      modifies this`eventSequence, this`linkEvents, this`sinks, this`told,
               this`previousMode, this`previousArmed, this`metadataKnown
      ensures Events() == ChangesNoted(old(Events()), old(Seen()), v, now)
      ensures Seen() == old(Seen()).(mode := v.mode, armed := Some(v.armed), metadata := v.metadata.Some?)
    {
      ObserveMetadata(v, now);
      ObserveMode(v, now);
      ObserveArmed(v, now);
    }

    method ObserveMetadata(v: Vehicle, now: Time)
      modifies this`eventSequence, this`linkEvents, this`sinks, this`told, this`metadataKnown
      ensures Events() == MetadataNoted(old(Events()), old(Seen()), v, now)
      ensures metadataKnown == v.metadata.Some?
    {
      if v.metadata.Some? && !metadataKnown {
        RecordEvent(VersionReported(v.metadata.value), now);
      }
      metadataKnown := v.metadata.Some?;
    }

    method ObserveMode(v: Vehicle, now: Time)
      modifies this`eventSequence, this`linkEvents, this`sinks, this`told, this`previousMode
      ensures Events() == ModeNoted(old(Events()), old(Seen()), v, now)
      ensures previousMode == v.mode
    {
      if v.mode.Some? && v.mode != previousMode {
        RecordEvent(ModeChanged(v.mode.value), now);
      }
      previousMode := v.mode;
    }

    method ObserveArmed(v: Vehicle, now: Time)
      modifies this`eventSequence, this`linkEvents, this`sinks, this`told, this`previousArmed
      ensures Events() == ArmedNoted(old(Events()), old(Seen()), v, now)
      ensures previousArmed == Some(v.armed)
    {
      if previousArmed.Some? && v.armed != previousArmed.value {
        RecordEvent(ArmedChanged(v.armed), now);
      }
      previousArmed := Some(v.armed);
    }

    method ObserveLink(v: Vehicle)
      modifies failsafe, this`previousPhase, this`sinks, this`changes
      ensures failsafe.Model() == F.Observed(old(failsafe.Model()), v.connected, v.systemId)
      ensures Events() == PhaseObserved(old(Events()), failsafe.Model().shown)
    {
      failsafe.ObserveVehicle(v.connected, v.systemId);
      ObserveFailsafePhase();
    }

    method UpdateVehicleConnection(v: Vehicle, now: Time)
      modifies failsafe, this`previousPhase, this`sinks, this`changes, this`failsafeIndex, this`nextFailsafe,
               this`eventSequence, this`linkEvents, this`told, this`wasConnected, this`previousMode,
               this`previousArmed, this`metadataKnown, this`heartbeatActive
      ensures failsafe.Model() == F.Observed(old(failsafe.Model()), v.connected, v.systemId)
      ensures Events() ==
        VehicleNoted(PhaseObserved(old(Events()), failsafe.Model().shown), old(Seen()), v, now)
      ensures Due() ==
        if v.connected && !old(wasConnected) then old(Due()).(index := 0, failsafe := now) else old(Due())
      ensures Seen() == SeenNow(old(Seen()), v)
    {
      var newlyConnected := v.connected && !wasConnected;
      ObserveLink(v);
      if newlyConnected {
        failsafeIndex := 0;
        nextFailsafe := now;
      }
      ObserveVehicle(v, now);
      if !v.connected {
        heartbeatActive := false;
      }
    }

    method SendCompanionHeartbeat(v: Vehicle, now: Time)
      requires Valid()
      modifies this, transport
      ensures Valid() && Model() == HeartbeatSent(encode, old(Model()), v, now)
    {
      if now < nextHeartbeat {
        return;
      }
      if v.connected && v.systemId.Some? {
        var sent := WriteFrame(CompanionHeartbeat(v.systemId.value), now);
        if sent {
          heartbeatActive := true;
        }
      }
      nextHeartbeat := now + HEARTBEAT_INTERVAL;
    }

    /** Writes a stream command and records whether it was sent. */
    method SendInterval(request: T.IntervalRequest, stream: nat, attempt: nat, now: Time)
      modifies transport, this`attempts, this`eventSequence, this`linkEvents, this`sinks, this`told
      ensures var (b, sent) := Transmitted(encode, old(Model()), SetInterval(request), now);
        Model() == b.(journal := Recorded(b.journal, IntervalRequested(stream, attempt, sent), now))
    {
      var sent := WriteFrame(SetInterval(request), now);
      RecordEvent(IntervalRequested(stream, attempt, sent), now);
    }

    method UpdateTelemetrySetup(v: Vehicle, now: Time) returns (ready: bool)
      requires Valid()
      modifies this, transport, telemetry
      ensures Valid() && Model() == SetupUpdated(encode, old(Model()), v, now)
      ensures ready == (Model().setup.phase == T.Active)
    {
      var request := telemetry.Update(v.connected, v.systemId, now);
      var setup := telemetry.Snapshot();
      assert Model() == old(Model()).(setup := telemetry.Model());
      if request.Some? {
        SendInterval(request.value, setup.completed, setup.attempt, now);
      }
      ready := setup.phase == T.Active;
    }

    method RequestFailsafeParameter(v: Vehicle, ready: bool, now: Time)
      requires Valid() && ready == (Model().setup.phase == T.Active)
      modifies this, transport
      ensures Valid() && Model() == FailsafeRequested(encode, old(Model()), v, now)
    {
      if !ready || v.systemId.None? || now < nextFailsafe {
        return;
      }
      var name := F.PARAMETER_NAMES[failsafeIndex];
      var sent := SendAndRecord(ReadFailsafe(v.systemId.value, name), now);
      ScheduleFailsafeParameter(now);
    }

    /** Writes a parameter read and records whether it was sent. */
    method SendAndRecord(request: Request, now: Time) returns (sent: bool)
      requires request.ReadFailsafe?
      modifies transport, this`attempts, this`eventSequence, this`linkEvents, this`sinks, this`told
      ensures var (b, written) := Transmitted(encode, old(Model()), request, now);
        sent == written &&
        Model() == b.(journal := Recorded(b.journal, ParameterRequested(request.name, sent), now))
    {
      sent := WriteFrame(request, now);
      RecordEvent(ParameterRequested(request.name, sent), now);
    }

    method ScheduleFailsafeParameter(now: Time)
      requires failsafeIndex < |F.PARAMETER_NAMES|
      modifies this`failsafeIndex, this`nextFailsafe
      ensures Due() == old(Due()).(
        index := if old(failsafeIndex) + 1 < |F.PARAMETER_NAMES| then old(failsafeIndex) + 1 else 0,
        failsafe := NextFailsafeDue(old(failsafeIndex), failsafe.snapshot.phase == F.Accepted, now))
    {
      failsafeIndex := failsafeIndex + 1;
      if failsafeIndex < |F.PARAMETER_NAMES| {
        nextFailsafe := now + FAILSAFE_PARAMETER_SPACING;
        return;
      }
      failsafeIndex := 0;
      nextFailsafe := now + if failsafe.snapshot.phase == F.Accepted then ACCEPTED_FAILSAFE_REFRESH
                            else REJECTED_FAILSAFE_RETRY;
    }

    method RequestVehicleMetadata(v: Vehicle, ready: bool, now: Time)
      requires Valid() && ready == (Model().setup.phase == T.Active)
      modifies this, transport
      ensures Valid()
      ensures Model() == ThresholdAsked(encode, VersionAsked(encode, old(Model()), v, now), v, now)
    {
      if !ready || v.systemId.None? {
        return;
      }
      RequestAutopilotVersion(v, now);
      RequestArmingVoltage(v, now);
    }

    method RequestAutopilotVersion(v: Vehicle, now: Time)
      requires Valid() && Model().setup.phase == T.Active && v.systemId.Some?
      modifies this, transport
      ensures Valid() && Model() == VersionAsked(encode, old(Model()), v, now)
    {
      if v.metadata.None? && now >= nextVersion {
        var sent := WriteFrame(RequestVersion(v.systemId.value), now);
        nextVersion := now + AUTOPILOT_VERSION_RETRY;
        RecordEvent(VersionRequested(sent), now);
      }
    }

    method RequestArmingVoltage(v: Vehicle, now: Time)
      requires Valid() && Model().setup.phase == T.Active && v.systemId.Some?
      modifies this, transport
      ensures Valid() && Model() == ThresholdAsked(encode, old(Model()), v, now)
    {
      if v.thresholdKnown || now < nextBattery {
        return;
      }
      var sent := WriteFrame(ReadThreshold(v.systemId.value), now);
      nextBattery := now + BATTERY_PARAMETER_RETRY;
      RecordEvent(ParameterRequested(D.BATTERY_ARMING_PARAMETER, sent), now);
    }

    method Poll(messages: seq<D.Message>, now: Time)
      requires Valid() && vehicleState.Valid() && vehicleState.clock <= now
      modifies this, transport, vehicleState, telemetry, failsafe
      ensures Valid() && vehicleState.Valid() && vehicleState.clock <= now
      ensures Model() == Polled(encode, old(Model()), PollInput(messages, now))
    {
      Ingest(messages, now);
      var v := SeeVehicle(now);
      Drive(v, now);
    }

    /** What this poll sees of the vehicle. */
    method SeeVehicle(now: Time) returns (v: Vehicle)
      requires vehicleState.Valid() && vehicleState.clock <= now
      modifies vehicleState
      ensures vehicleState.Valid() && vehicleState.clock <= now && vehicleState.log == old(vehicleState.log)
      ensures v == VehicleAt(vehicleState.log, now)
    {
      var shown := vehicleState.Snapshot(now);
      v := VehicleOf(shown);
    }

    method Drive(v: Vehicle, now: Time)
      requires Valid()
      modifies this, transport, telemetry, failsafe
      ensures Valid() && Model() == Driven(encode, old(Model()), v, now)
    {
      attempts := SessionEntered(Model(), v).attempts;
      assert Model() == SessionEntered(old(Model()), v);
      UpdateVehicleConnection(v, now);
      SendCompanionHeartbeat(v, now);
      var ready := UpdateTelemetrySetup(v, now);
      RequestFailsafeParameter(v, ready, now);
      RequestVehicleMetadata(v, ready, now);
    }
  }
}
