/**
 Everything a snapshot shows, told by positions in the log: each field is present exactly while the link is
 alive and its own last valid sample of the session is recent enough, and then says what that sample said.
 */
module VehicleView {
  import opened Basics
  import opened VehicleLog

  /** Entry `i` is the last sample of `kind` in the session, and no older than `timeout` at `now`. */
  ghost predicate FreshAt(log: Log, now: Time, kind: Kind, timeout: Time, i: int) {
    IsLatest(log, kind, i) && now - log[i].at <= timeout
  }

  /** There is a fresh sample exactly if what is known of the kind is fresh. */
  lemma FreshIsKnown(log: Log, now: Time, kind: Kind, timeout: Time)
    ensures var known := Known(Learned(log), kind);
      (known.Some? && now - known.value.at <= timeout) <==> exists i :: FreshAt(log, now, kind, timeout, i)
  {
    LearnedIsLatest(log, kind);
    if Known(Learned(log), kind).Some? {
      var i :| IsLatest(log, kind, i);
      assert FreshAt(log, now, kind, timeout, i) <==> now - Known(Learned(log), kind).value.at <= timeout;
    }
  }

  // ----- the link

  /** Heartbeat `h` says all that a snapshot shows of the vehicle's identity and mode. */
  ghost predicate Identifies(e: Event, shown: VehicleSnapshot)
    requires e.Heartbeat?
  {
    shown.systemId == Some(e.system) && shown.componentId == Some(e.component) &&
    shown.vehicleType == Some(e.vehicleType) && shown.autopilotType == Some(e.autopilot) &&
    shown.systemStatus == Some(e.status) && shown.flightMode == Some(e.customMode) &&
    (shown.armed <==> e.baseMode & 128 != 0)
  }

  /** Who the vehicle is: what the last heartbeat says, on a lost link too, and nothing before the first one. */
  lemma IdentityIsLastHeartbeat(log: Log, now: Time)
    ensures var shown := Show(Learned(log), now);
      (forall h :: IsLastHeartbeat(log, h) ==> Identifies(log[h].event, shown)) &&
      ((forall h :: !IsLastHeartbeat(log, h)) ==>
        shown.systemId == shown.componentId == shown.vehicleType == None &&
        shown.autopilotType == shown.systemStatus == shown.flightMode == None && !shown.armed)
  {
    HeartbeatIsLast(log);
    LearnedHeartbeat(log);
  }

  /** The firmware shown is the one last reported in the session, however long ago. */
  lemma MetadataIsLatest(log: Log, now: Time, metadata: Metadata)
    ensures Show(Learned(log), now).metadata == Some(metadata) <==>
      exists i :: IsLatest(log, Firmware, i) && metadata == log[i].event.metadata
  {
    LearnedIsLatest(log, Firmware);
  }

  /** A heartbeat opens a new session after more than 3 s of silence, or from another system or component. */
  lemma BreakIsSilenceOrChange(log: Log, i: nat)
    requires i < |log|
    ensures Breaks(LastHeartbeat(log[..i]), log[i]) <==>
      log[i].event.Heartbeat? &&
      exists h ::
        IsLastHeartbeat(log[..i], h) &&
        (log[i].at - log[h].at > 3 * SECOND || log[i].event.system != log[h].event.system ||
         log[i].event.component != log[h].event.component)
  {
    HeartbeatIsLast(log[..i]);
    assert forall h :: 0 <= h < i ==> log[..i][h] == log[h];
  }

  // ----- position

  /** Fix and satellites: from the last GPS report, for 5 s. */
  lemma FixIsFresh(log: Log, now: Time, fix: nat)
    ensures Show(Learned(log), now).position.fix == Some(fix) <==>
      LinkAlive(log, now) &&
      exists i ::
        FreshAt(log, now, Fix, 5 * SECOND, i) && fix == log[i].event.fix
  {
    ConnectedIsAlive(log, now);
    LearnedIsLatest(log, Fix);
  }

  lemma SatellitesAreFresh(log: Log, now: Time, satellites: nat)
    ensures Show(Learned(log), now).position.satellites == Some(satellites) <==>
      LinkAlive(log, now) &&
      exists i ::
        FreshAt(log, now, Fix, 5 * SECOND, i) && satellites == log[i].event.satellites
  {
    ConnectedIsAlive(log, now);
    LearnedIsLatest(log, Fix);
  }

  /** Ready to navigate: a 3D fix or better, for 5 s. */
  lemma GpsReadyIsFresh(log: Log, now: Time)
    ensures Show(Learned(log), now).position.gpsReady <==>
      LinkAlive(log, now) &&
      exists i ::
        FreshAt(log, now, Fix, 5 * SECOND, i) && log[i].event.fix >= 3
    ensures Show(Learned(log), now).position.navigationReady == Show(Learned(log), now).position.gpsReady
  {
    ConnectedIsAlive(log, now);
    LearnedIsLatest(log, Fix);
  }

  /** The altitude in metres: from the last report in millimetres, for 2 s. */
  lemma AltitudeIsFresh(log: Log, now: Time, metres: real)
    ensures Show(Learned(log), now).position.relativeAltitude == Some(metres) <==>
      LinkAlive(log, now) &&
      exists i ::
        FreshAt(log, now, Altitude, 2 * SECOND, i) &&
        1000.0 * metres == log[i].event.relativeAltitudeMm as real
  {
    ConnectedIsAlive(log, now);
    LearnedIsLatest(log, Altitude);
    AltitudeIsInMetres(Learned(log), now, metres);
  }

  lemma AltitudeIsInMetres(k: Knowledge, now: Time, metres: real)
    ensures ShowPosition(k, now).relativeAltitude == Some(metres) <==>
      k.altitude.Seen? && now - k.altitude.at <= 2 * SECOND && 1000.0 * metres == k.altitude.value as real
  {
  }

  /** The local position: all three coordinates of the last report, for 2 s. */
  lemma LocalIsFresh(log: Log, now: Time, north: Float, east: Float, down: Float)
    ensures Show(Learned(log), now).position.local == Some((north, east, down)) <==>
      LinkAlive(log, now) &&
      exists i ::
        FreshAt(log, now, LocalPoint, 2 * SECOND, i) &&
        north == log[i].event.north && east == log[i].event.east && down == log[i].event.down
  {
    ConnectedIsAlive(log, now);
    LearnedIsLatest(log, LocalPoint);
  }

  /** The attitude: all four angles of the last report, for 2 s. */
  lemma AttitudeIsFresh(log: Log, now: Time, roll: Float, pitch: Float, yaw: Float, yawRate: Float)
    ensures Show(Learned(log), now).position.attitude == Some((roll, pitch, yaw, yawRate)) <==>
      LinkAlive(log, now) &&
      exists i ::
        FreshAt(log, now, Orientation, 2 * SECOND, i) &&
        roll == log[i].event.roll && pitch == log[i].event.pitch &&
        yaw == log[i].event.yaw && yawRate == log[i].event.yawRate
  {
    ConnectedIsAlive(log, now);
    LearnedIsLatest(log, Orientation);
  }

  // ----- battery

  /** Which reports count: a finite voltage above 0, a finite current from 0 on, a charge from 0 to 100 percent. */
  lemma ValidReports(e: Event)
    requires e.Battery? || e.SystemStatus?
    ensures Carries(Voltage, e) <==> exists r: real :: r > 0.0 && e.voltage == Some(Finite(r))
    ensures Carries(Current, e) <==> exists r: real :: r >= 0.0 && e.current == Some(Finite(r))
    ensures Carries(Remaining, e) <==> exists p: int :: 0 <= p <= 100 && e.remaining == Some(p)
  {
    if ValidVoltage(e.voltage) {
      assert e.voltage == Some(Finite(e.voltage.value.r));
    }
    if ValidCurrent(e.current) {
      assert e.current == Some(Finite(e.current.value.r));
    }
    if ValidRemaining(e.remaining) {
      assert e.remaining == Some(e.remaining.value);
    }
  }

  /** The voltage: from the last report of a finite positive one, for 10 s. */
  lemma VoltageIsFresh(log: Log, now: Time, voltage: Float)
    ensures Show(Learned(log), now).battery.voltage == Some(voltage) <==>
      LinkAlive(log, now) &&
      exists i ::
        FreshAt(log, now, Voltage, 10 * SECOND, i) && log[i].event.voltage == Some(voltage)
    ensures Show(Learned(log), now).battery.voltage == Some(voltage) ==> voltage.Finite? && voltage.r > 0.0
  {
    ConnectedIsAlive(log, now);
    LearnedIsLatest(log, Voltage);
  }

  /** The current: from the last report of a finite one that is not negative, for 10 s. */
  lemma CurrentIsFresh(log: Log, now: Time, current: Float)
    ensures Show(Learned(log), now).battery.current == Some(current) <==>
      LinkAlive(log, now) &&
      exists i ::
        FreshAt(log, now, Current, 10 * SECOND, i) && log[i].event.current == Some(current)
    ensures Show(Learned(log), now).battery.current == Some(current) ==> current.Finite? && current.r >= 0.0
  {
    ConnectedIsAlive(log, now);
    LearnedIsLatest(log, Current);
  }

  /** The remaining charge: from the last report of one from 0 to 100 percent, for 10 s. */
  lemma RemainingIsFresh(log: Log, now: Time, remaining: int)
    ensures Show(Learned(log), now).battery.remaining == Some(remaining) <==>
      LinkAlive(log, now) &&
      exists i ::
        FreshAt(log, now, Remaining, 10 * SECOND, i) && log[i].event.remaining == Some(remaining)
    ensures Show(Learned(log), now).battery.remaining == Some(remaining) ==> 0 <= remaining <= 100
  {
    ConnectedIsAlive(log, now);
    LearnedIsLatest(log, Remaining);
  }

  /** What a reported threshold is shown as: itself if it is above 0, and 0 otherwise, NaN included. */
  predicate ClampsTo(reported: Float, shown: Float) {
    if reported.PosInf? || (reported.Finite? && reported.r > 0.0) then shown == reported else shown == Finite(0.0)
  }

  /** The arming threshold: from the last report in the session, for as long as the voltage is shown. */
  lemma ArmingVoltageIsLatest(log: Log, now: Time, threshold: Float)
    ensures Show(Learned(log), now).battery.armingVoltage == Some(threshold) <==>
      LinkAlive(log, now) &&
      exists v, i ::
        FreshAt(log, now, Voltage, 10 * SECOND, v) && IsLatest(log, Threshold, i) &&
        ClampsTo(log[i].event.threshold, threshold)
  {
    ConnectedIsAlive(log, now);
    FreshIsKnown(log, now, Voltage, 10 * SECOND);
    ArmingVoltageIsClamped(Learned(log), now, threshold);
    ThresholdClamps(log, threshold);
  }

  lemma ThresholdClamps(log: Log, threshold: Float)
    ensures var known := Learned(log).threshold;
      known.Seen? && ClampsTo(known.value, threshold) <==>
        exists i :: IsLatest(log, Threshold, i) && ClampsTo(log[i].event.threshold, threshold)
  {
    LearnedIsLatest(log, Threshold);
  }

  lemma ArmingVoltageIsClamped(k: Knowledge, now: Time, threshold: Float)
    ensures ShowBattery(k, now).armingVoltage == Some(threshold) <==>
      k.voltage.Seen? && now - k.voltage.at <= 10 * SECOND &&
      k.threshold.Seen? && ClampsTo(k.threshold.value, threshold)
  {
  }

  /** The session's last status, for 5 s, has the battery sensor both enabled and healthy. */
  ghost predicate SensorEvidence(log: Log, now: Time) {
    exists i :: FreshAt(log, now, Health, 5 * SECOND, i) && SensorCovered(log[i].event)
  }

  predicate SensorCovered(e: Event)
    requires e.SystemStatus?
  {
    e.enabled & 0x200_0000 != 0 && e.healthy & 0x200_0000 != 0
  }

  ghost predicate BatteryTextIsFresh(log: Log, now: Time) {
    exists text, i :: FreshAt(log, now, Warning(text), 30 * SECOND, i) && MentionsBattery(text)
  }

  /**
   The battery is shown as ready exactly when the link is alive and the log holds the evidence: a recent
   voltage that reaches the reported threshold, a recent status with a healthy battery sensor, no recent
   low charge and no battery warning of the last 30 s.
   */
  lemma BatteryReadyIsEvidence(log: Log, now: Time)
    ensures Show(Learned(log), now).battery.ready <==>
      && LinkAlive(log, now)
      && VoltageEvidence(log, now)
      && SensorEvidence(log, now)
      && !LowChargeEvidence(log, now)
      && !BatteryTextIsFresh(log, now)
  {
    ConnectedIsAlive(log, now);
    VoltageIsEvidence(log, now);
    SensorIsEvidence(log, now);
    LowChargeIsEvidence(log, now);
    BatteryTextIsEvidence(log, now);
  }

  lemma SensorIsEvidence(log: Log, now: Time)
    ensures BatterySensorHealthy(Learned(log), now) <==> SensorEvidence(log, now)
  {
    LearnedIsLatest(log, Health);
  }

  lemma BatteryTextIsEvidence(log: Log, now: Time)
    ensures BatteryWarned(Learned(log), now) <==> BatteryTextIsFresh(log, now)
  {
    forall text ensures text in RecentWarnings(Learned(log), now, 30 * SECOND) <==>
      exists i :: FreshAt(log, now, Warning(text), 30 * SECOND, i)
    {
      WarningsAreFresh(log, now, text);
    }
  }

  // ----- health and warnings

  /** The health is known for 5 s after a status, and fine if that left no enabled sensor unhealthy. */
  lemma HealthIsFresh(log: Log, now: Time)
    ensures Show(Learned(log), now).readiness.healthKnown <==>
      LinkAlive(log, now) &&
      exists i :: FreshAt(log, now, Health, 5 * SECOND, i)
    ensures Show(Learned(log), now).readiness.healthOk <==>
      LinkAlive(log, now) &&
      exists i ::
        FreshAt(log, now, Health, 5 * SECOND, i) && AllHealthy(log[i].event)
  {
    ConnectedIsAlive(log, now);
    FreshIsKnown(log, now, Health, 5 * SECOND);
    HealthOkIsFresh(log, now);
  }

  lemma HealthOkIsFresh(log: Log, now: Time)
    ensures HealthOk(Learned(log), now) <==>
      exists i :: FreshAt(log, now, Health, 5 * SECOND, i) && AllHealthy(log[i].event)
  {
    LearnedIsLatest(log, Health);
  }

  predicate AllHealthy(e: Event)
    requires e.SystemStatus?
  {
    e.enabled & !e.healthy == 0
  }

  /** A text counts as a warning from severity 4 up (numbers down), or if it mentions a pre-arm check. */
  lemma NotableTexts(severity: nat, text: string)
    ensures Carries(Warning(text), StatusText(severity, text)) <==>
      text != "" && (severity <= 4 || exists i :: 0 <= i <= |text| - 7 && OccursAt(text, "prearm:", i))
    ensures MentionsBattery(text) <==> exists i :: 0 <= i <= |text| - 7 && OccursAt(text, "battery", i)
  {
  }

  /** A warning text is listed for 30 s after its last occurrence in the session, on a lost link too. */
  lemma WarningsAreFresh(log: Log, now: Time, text: string)
    ensures text in RecentWarnings(Learned(log), now, WARNING_TIMEOUT) <==>
      exists i :: FreshAt(log, now, Warning(text), 30 * SECOND, i)
  {
    FreshIsKnown(log, now, Warning(text), 30 * SECOND);
  }

  /** Nothing measured is shown on a lost link. */
  lemma LostLinkShowsNothing(log: Log, now: Time)
    requires !LinkAlive(log, now)
    ensures var shown := Show(Learned(log), now);
      shown.position == PositionView() && shown.battery == BatteryView() && shown.readiness == ReadinessView()
  {
    ConnectedIsAlive(log, now);
  }
}
