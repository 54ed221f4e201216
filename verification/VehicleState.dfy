/**
 The vehicle observer: one stamp per measured quantity, overwritten in place, and a list of
 warnings pruned whenever a snapshot is taken. It is proved to show what `VehicleLog` says of
 the events it was given, under every interleaving of events and snapshots.
 */
module VehicleState {
  import opened Basics
  import opened VehicleLog

  datatype WarningEntry = WarningEntry(text: string, lastSeen: Time)

  /** What the warning list may hold while the clock reads `clock`. */
  ghost predicate WarningsMatch(warnings: seq<WarningEntry>, k: Knowledge, clock: Time) {
    && DistinctTexts(warnings)
    && (forall i :: 0 <= i < |warnings| ==> EntryMatches(warnings[i], k))
    && (forall t :: Recent(k, t, clock, WARNING_TIMEOUT) ==> Listed(warnings, t))
  }

  predicate EntryMatches(w: WarningEntry, k: Knowledge) {
    w.text in k.warnings && k.warnings[w.text] == w.lastSeen
  }

  ghost predicate Listed(warnings: seq<WarningEntry>, text: string) {
    exists i :: 0 <= i < |warnings| && warnings[i].text == text
  }

  ghost predicate TextsAre(texts: seq<string>, expected: set<string>) {
    && (forall i, j :: 0 <= i < j < |texts| ==> texts[i] != texts[j])
    && (forall t :: t in texts <==> t in expected)
  }

  /** Removes the entries that were last seen more than the warning timeout ago. */
  function Prune(warnings: seq<WarningEntry>, now: Time): (kept: seq<WarningEntry>)
    ensures forall w :: w in kept <==> w in warnings && now - w.lastSeen <= WARNING_TIMEOUT
    ensures DistinctTexts(warnings) ==> DistinctTexts(kept)
  {
    if warnings == [] then []
    else if now - warnings[0].lastSeen > WARNING_TIMEOUT then Prune(warnings[1..], now)
    else [warnings[0]] + Prune(warnings[1..], now)
  }

  /** Pruning is transparent: nothing that can still be shown is forgotten. */
  lemma PruneKeepsMatch(warnings: seq<WarningEntry>, k: Knowledge, clock: Time, now: Time)
    requires WarningsMatch(warnings, k, clock) && clock <= now
    ensures WarningsMatch(Prune(warnings, now), k, now)
    ensures forall t :: Listed(Prune(warnings, now), t) <==> t in RecentWarnings(k, now, WARNING_TIMEOUT)
  {
    var kept := Prune(warnings, now);
    forall i | 0 <= i < |kept| ensures EntryMatches(kept[i], k) {
      assert kept[i] in warnings;
    }
    forall t | Recent(k, t, now, WARNING_TIMEOUT) ensures Listed(kept, t) {
      assert Recent(k, t, clock, WARNING_TIMEOUT);
      var i :| 0 <= i < |warnings| && warnings[i].text == t;
      assert warnings[i] in kept;
    }
    forall t | Listed(kept, t) ensures t in RecentWarnings(k, now, WARNING_TIMEOUT) {
      var i :| 0 <= i < |kept| && kept[i].text == t;
      assert kept[i] in kept;
    }
  }

  /** An event that neither breaks the session nor is a warning leaves the list as good as it was. */
  lemma OtherEventKeepsMatch(warnings: seq<WarningEntry>, k: Knowledge, clock: Time, s: Stamped)
    requires WarningsMatch(warnings, k, clock) && clock <= s.at
    requires Learn(k, s).warnings == k.warnings
    ensures WarningsMatch(warnings, Learn(k, s), s.at)
  {
    forall t | Recent(Learn(k, s), t, s.at, WARNING_TIMEOUT) ensures Listed(warnings, t) {
      assert Recent(k, t, clock, WARNING_TIMEOUT);
    }
  }

  /** Noting a text: its entry is refreshed in place, or added at the end. */
  function Note(warnings: seq<WarningEntry>, text: string, now: Time): seq<WarningEntry> {
    if warnings == [] then [WarningEntry(text, now)]
    else if warnings[0].text == text then [WarningEntry(text, now)] + warnings[1..]
    else [warnings[0]] + Note(warnings[1..], text, now)
  }

  ghost predicate DistinctTexts(warnings: seq<WarningEntry>) {
    forall i, j :: 0 <= i < j < |warnings| ==> warnings[i].text != warnings[j].text
  }

  lemma {:induction false} NoteEntries(warnings: seq<WarningEntry>, text: string, now: Time)
    requires DistinctTexts(warnings)
    ensures DistinctTexts(Note(warnings, text, now))
    ensures forall w :: w in Note(warnings, text, now) <==>
      w == WarningEntry(text, now) || (w in warnings && w.text != text)
  {
    if warnings != [] {
      var rest := warnings[1..];
      assert warnings == [warnings[0]] + rest;
      assert DistinctTexts(rest) && forall w :: w in rest ==> w.text != warnings[0].text;
      if warnings[0].text != text {
        NoteEntries(rest, text, now);
        PrependDistinct(warnings[0], Note(rest, text, now));
      }
    }
  }

  lemma PrependDistinct(w: WarningEntry, rest: seq<WarningEntry>)
    requires DistinctTexts(rest) && forall x :: x in rest ==> x.text != w.text
    ensures DistinctTexts([w] + rest)
  {
    assert forall i :: 0 <= i < |rest| ==> rest[i] in rest;
  }

  lemma NoteKeepsMatch(warnings: seq<WarningEntry>, k: Knowledge, clock: Time, s: Stamped)
    requires WarningsMatch(warnings, k, clock) && clock <= s.at
    requires s.event.StatusText? && Notable(s.event.severity, s.event.text)
    ensures WarningsMatch(Note(warnings, s.event.text, s.at), Learn(k, s), s.at)
  {
    var text := s.event.text;
    var noted := Note(warnings, text, s.at);
    NoteEntries(warnings, text, s.at);
    forall i | 0 <= i < |noted| ensures EntryMatches(noted[i], Learn(k, s)) {
      assert noted[i] in noted;
      assert noted[i].text != text ==> exists j :: 0 <= j < |warnings| && warnings[j] == noted[i];
    }
    forall t | Recent(Learn(k, s), t, s.at, WARNING_TIMEOUT) ensures Listed(noted, t) {
      if t == text {
        assert WarningEntry(text, s.at) in noted;
      } else {
        assert Recent(k, t, clock, WARNING_TIMEOUT);
        var i :| 0 <= i < |warnings| && warnings[i].text == t;
        assert warnings[i] in noted;
      }
    }
  }

  // ----- the fields, grouped; a value whose stamp was reset stays behind but means nothing

  datatype IdentityFields = IdentityFields(
    lastHeartbeat: Option<Time> := None,
    systemId: Option<nat> := None,
    componentId: Option<nat> := None,
    vehicleType: Option<nat> := None,
    autopilotType: Option<nat> := None,
    systemStatus: Option<nat> := None,
    flightMode: Option<nat> := None,
    armed: bool := false)

  datatype PositionFields = PositionFields(
    lastGps: Option<Time> := None,
    lastGlobalPosition: Option<Time> := None,
    lastLocalPosition: Option<Time> := None,
    lastAttitude: Option<Time> := None,
    fix: Option<nat> := None,
    satellites: Option<nat> := None,
    relativeAltitude: Option<real> := None,
    local: Option<(Float, Float, Float)> := None,
    attitude: Option<(Float, Float, Float, Float)> := None)

  datatype BatteryFields = BatteryFields(
    lastVoltage: Option<Time> := None,
    lastCurrent: Option<Time> := None,
    lastRemaining: Option<Time> := None,
    voltage: Option<Float> := None,
    current: Option<Float> := None,
    remaining: Option<int> := None)

  datatype StatusFields = StatusFields(
    lastSystemStatus: Option<Time> := None,
    sensorsEnabled: bv32 := 0,
    sensorsHealthy: bv32 := 0,
    armingVoltage: Option<Float> := None,
    metadata: Option<Metadata> := None)

  predicate IdentityMatches(f: IdentityFields, k: Knowledge) {
    if f.lastHeartbeat.None? then f == IdentityFields() && k.heartbeat.Unseen?
    else
      k.heartbeat.Seen? && k.heartbeat.value.Heartbeat? &&
      var e := k.heartbeat.value;
      f == IdentityFields(
        Some(k.heartbeat.at), Some(e.system), Some(e.component), Some(e.vehicleType), Some(e.autopilot),
        Some(e.status), Some(e.customMode), e.baseMode & SAFETY_ARMED != 0)
  }

  predicate PositionMatches(f: PositionFields, k: Knowledge) {
    && (if f.lastGps.None? then k.fix.Unseen?
        else f.fix.Some? && f.satellites.Some? && k.fix == Seen(f.lastGps.value, (f.fix.value, f.satellites.value)))
    && (if f.lastGlobalPosition.None? then k.altitude.Unseen?
        else k.altitude.Seen? && k.altitude.at == f.lastGlobalPosition.value &&
             f.relativeAltitude == Some(k.altitude.value as real / 1000.0))
    && (if f.lastLocalPosition.None? then k.localPoint.Unseen?
        else f.local.Some? && k.localPoint == Seen(f.lastLocalPosition.value, f.local.value))
    && (if f.lastAttitude.None? then k.orientation.Unseen?
        else f.attitude.Some? && k.orientation == Seen(f.lastAttitude.value, f.attitude.value))
  }

  predicate BatteryMatches(f: BatteryFields, k: Knowledge) {
    && (if f.lastVoltage.None? then k.voltage.Unseen?
        else f.voltage.Some? && k.voltage == Seen(f.lastVoltage.value, f.voltage.value))
    && (if f.lastCurrent.None? then k.current.Unseen?
        else f.current.Some? && k.current == Seen(f.lastCurrent.value, f.current.value))
    && (if f.lastRemaining.None? then k.remaining.Unseen?
        else f.remaining.Some? && k.remaining == Seen(f.lastRemaining.value, f.remaining.value))
  }

  predicate StatusMatches(f: StatusFields, k: Knowledge) {
    && (if f.lastSystemStatus.None? then k.health.Unseen?
        else k.health == Seen(f.lastSystemStatus.value, (f.sensorsEnabled, f.sensorsHealthy)))
    && f.armingVoltage == (if k.threshold.Unseen? then None else Some(ThresholdOf(k.threshold.value)))
    && f.metadata == (if k.firmware.Unseen? then None else Some(k.firmware.value))
  }

  lemma BreakIsRestart(f: IdentityFields, k: Knowledge, now: Time, system: nat, component: nat)
    requires IdentityMatches(f, k)
    ensures Restarts(k.heartbeat, now, system, component) <==>
      (f.lastHeartbeat.Some? && !IsFresh(f.lastHeartbeat, now, HEARTBEAT_TIMEOUT)) ||
      (f.systemId.Some? && f.systemId.value != system) || (f.componentId.Some? && f.componentId.value != component)
  {
  }

  lemma NoWarningsMatch(k: Knowledge, s: Stamped)
    requires s.event.Heartbeat? && Restarts(k.heartbeat, s.at, s.event.system, s.event.component)
    ensures WarningsMatch([], Learn(k, s), s.at)
  {
  }

  /** A heartbeat that breaks the session: fields without stamps match what is then known. */
  lemma ResetMatches(p: PositionFields, b: BatteryFields, f: StatusFields, k: Knowledge, s: Stamped)
    requires s.event.Heartbeat? && Restarts(k.heartbeat, s.at, s.event.system, s.event.component)
    requires p.lastGps.None? && p.lastGlobalPosition.None? && p.lastLocalPosition.None? && p.lastAttitude.None?
    requires b.lastVoltage.None? && b.lastCurrent.None? && b.lastRemaining.None?
    requires f.lastSystemStatus.None? && f.armingVoltage.None? && f.metadata.None?
    ensures PositionMatches(p, Learn(k, s)) && BatteryMatches(b, Learn(k, s)) && StatusMatches(f, Learn(k, s))
  {
  }

  /** Any other heartbeat leaves the fields as good as they were. */
  lemma HeartbeatKeepsMatch(p: PositionFields, b: BatteryFields, f: StatusFields, k: Knowledge, s: Stamped)
    requires s.event.Heartbeat? && !Restarts(k.heartbeat, s.at, s.event.system, s.event.component)
    requires PositionMatches(p, k) && BatteryMatches(b, k) && StatusMatches(f, k)
    ensures PositionMatches(p, Learn(k, s)) && BatteryMatches(b, Learn(k, s)) && StatusMatches(f, Learn(k, s))
  {
  }

  /** Taking over the valid parts of a battery report is what the report teaches. */
  lemma BatteryLearned(before: BatteryFields, after: BatteryFields, k: Knowledge, now: Time,
                       voltage: Option<Float>, current: Option<Float>, remaining: Option<int>)
    requires BatteryMatches(before, k)
    requires (after.voltage, after.lastVoltage) ==
      if ValidVoltage(voltage) then (voltage, Some(now)) else (before.voltage, before.lastVoltage)
    requires (after.current, after.lastCurrent) ==
      if ValidCurrent(current) then (current, Some(now)) else (before.current, before.lastCurrent)
    requires (after.remaining, after.lastRemaining) ==
      if ValidRemaining(remaining) then (remaining, Some(now)) else (before.remaining, before.lastRemaining)
    ensures BatteryMatches(after, LearnBattery(k, now, voltage, current, remaining))
  {
  }

  class VehicleState {
    var identity: IdentityFields
    var position: PositionFields
    var battery: BatteryFields
    var status: StatusFields
    var warnings: seq<WarningEntry>

    ghost var log: Log
    ghost var known: Knowledge
    ghost var clock: Time

    ghost predicate Valid()
      reads this
    {
      && known == Learned(log)
      && IdentityMatches(identity, known)
      && PositionMatches(position, known)
      && BatteryMatches(battery, known)
      && StatusMatches(status, known)
      && WarningsMatch(warnings, known, clock)
    }

    constructor (ghost start: Time)
      ensures Valid() && log == [] && clock == start
    {
      identity, position := IdentityFields(), PositionFields();
      battery, status, warnings := BatteryFields(), StatusFields(), [];
      log, known, clock := [], NOTHING, start;
    }

    method OnHeartbeat(system: nat, component: nat, vehicle: nat, autopilot: nat,
                       baseMode: bv8, customMode: nat, systemStatus: nat, now: Time)
      requires Valid() && clock <= now
      modifies this
      ensures Valid() && clock == now
      ensures log == old(log) +
        [Stamped(now, Heartbeat(system, component, vehicle, autopilot, baseMode, customMode, systemStatus))]
    {
      ghost var s := Stamped(now, Heartbeat(system, component, vehicle, autopilot, baseMode, customMode, systemStatus));
      EnterSession(system, component, now, s);
      identity := IdentityFields(
        Some(now), Some(system), Some(component), Some(vehicle), Some(autopilot),
        Some(systemStatus), Some(customMode), baseMode & SAFETY_ARMED != 0);
      assert IdentityMatches(identity, Learn(known, s));
      LearnedAppend(log, s);
      log, known, clock := log + [s], Learn(known, s), now;
    }

    /** Forgets all telemetry if the heartbeat `s` comes after silence or from another controller. */
    method EnterSession(system: nat, component: nat, now: Time, ghost s: Stamped)
      requires Valid() && clock <= now && s.at == now
      requires s.event.Heartbeat? && s.event.system == system && s.event.component == component
      modifies this`position, this`battery, this`status, this`warnings
      ensures PositionMatches(position, Learn(known, s)) && BatteryMatches(battery, Learn(known, s))
      ensures StatusMatches(status, Learn(known, s)) && WarningsMatch(warnings, Learn(known, s), now)
    {
      var reconnecting :=
        identity.lastHeartbeat.Some? && !IsFresh(identity.lastHeartbeat, now, HEARTBEAT_TIMEOUT);
      var controllerChanged :=
        (identity.systemId.Some? && identity.systemId.value != system) ||
        (identity.componentId.Some? && identity.componentId.value != component);
      BreakIsRestart(identity, known, now, system, component);
      if reconnecting || controllerChanged {
        ResetTelemetry();
        ResetMatches(position, battery, status, known, s);
        NoWarningsMatch(known, s);
      } else {
        OtherEventKeepsMatch(warnings, known, clock, s);
        HeartbeatKeepsMatch(position, battery, status, known, s);
      }
    }

    /** Forgets every stamp; the values stay behind, masked. */
    method ResetTelemetry()
      modifies this`position, this`battery, this`status, this`warnings
      ensures position == old(position).(
        lastGps := None, lastGlobalPosition := None, lastLocalPosition := None, lastAttitude := None)
      ensures battery == old(battery).(lastVoltage := None, lastCurrent := None, lastRemaining := None)
      ensures status == old(status).(lastSystemStatus := None, armingVoltage := None, metadata := None)
      ensures warnings == []
    {
      position := position.(lastGps := None);
      position := position.(lastGlobalPosition := None);
      position := position.(lastLocalPosition := None);
      position := position.(lastAttitude := None);
      battery := battery.(lastVoltage := None, lastCurrent := None, lastRemaining := None);
      status := status.(lastSystemStatus := None);
      status := status.(armingVoltage := None);
      status := status.(metadata := None);
      warnings := [];
    }

    /** Ghost bookkeeping for an event that is neither a heartbeat nor a warning. */
    ghost method Record(s: Stamped)
      requires known == Learned(log) && WarningsMatch(warnings, known, clock) && clock <= s.at
      requires Learn(known, s).warnings == known.warnings
      modifies this`log, this`known, this`clock
      ensures log == old(log) + [s] && clock == s.at
      ensures known == Learned(log) == Learn(old(known), s)
      ensures WarningsMatch(warnings, known, clock)
    {
      OtherEventKeepsMatch(warnings, known, clock, s);
      LearnedAppend(log, s);
      log, known, clock := log + [s], Learn(known, s), s.at;
    }

    method OnGps(fixType: nat, satellitesVisible: nat, now: Time)
      requires Valid() && clock <= now
      modifies this
      ensures Valid() && clock == now && log == old(log) + [Stamped(now, Gps(fixType, satellitesVisible))]
    {
      position := position.(lastGps := Some(now), fix := Some(fixType), satellites := Some(satellitesVisible));
      Record(Stamped(now, Gps(fixType, satellitesVisible)));
    }

    method OnGlobalPosition(relativeAltitudeMm: int, now: Time)
      requires Valid() && clock <= now
      modifies this
      ensures Valid() && clock == now && log == old(log) + [Stamped(now, GlobalPosition(relativeAltitudeMm))]
    {
      position := position.(lastGlobalPosition := Some(now),
                            relativeAltitude := Some(relativeAltitudeMm as real / 1000.0));
      Record(Stamped(now, GlobalPosition(relativeAltitudeMm)));
    }

    method OnLocalPosition(north: Float, east: Float, down: Float, now: Time)
      requires Valid() && clock <= now
      modifies this
      ensures Valid() && clock == now && log == old(log) + [Stamped(now, LocalPosition(north, east, down))]
    {
      position := position.(lastLocalPosition := Some(now), local := Some((north, east, down)));
      Record(Stamped(now, LocalPosition(north, east, down)));
    }

    method OnAttitude(roll: Float, pitch: Float, yaw: Float, yawRate: Float, now: Time)
      requires Valid() && clock <= now
      modifies this
      ensures Valid() && clock == now && log == old(log) + [Stamped(now, Attitude(roll, pitch, yaw, yawRate))]
    {
      position := position.(lastAttitude := Some(now), attitude := Some((roll, pitch, yaw, yawRate)));
      Record(Stamped(now, Attitude(roll, pitch, yaw, yawRate)));
    }

    /** Each part is taken over only if it is valid. */
    method UpdateBattery(voltage: Option<Float>, current: Option<Float>, remaining: Option<int>, now: Time)
      modifies this`battery
      ensures (battery.voltage, battery.lastVoltage) ==
        if ValidVoltage(voltage) then (voltage, Some(now)) else old((battery.voltage, battery.lastVoltage))
      ensures (battery.current, battery.lastCurrent) ==
        if ValidCurrent(current) then (current, Some(now)) else old((battery.current, battery.lastCurrent))
      ensures (battery.remaining, battery.lastRemaining) ==
        if ValidRemaining(remaining) then (remaining, Some(now)) else old((battery.remaining, battery.lastRemaining))
    {
      if voltage.Some? && voltage.value.Finite? && voltage.value.r > 0.0 {
        battery := battery.(voltage := voltage, lastVoltage := Some(now));
      }
      if current.Some? && current.value.Finite? && current.value.r >= 0.0 {
        battery := battery.(current := current, lastCurrent := Some(now));
      }
      if remaining.Some? && remaining.value >= 0 && remaining.value <= MAXIMUM_BATTERY_PERCENT {
        battery := battery.(remaining := remaining, lastRemaining := Some(now));
      }
    }

    method TakeBattery(voltage: Option<Float>, current: Option<Float>, remaining: Option<int>, now: Time)
      requires BatteryMatches(battery, known)
      modifies this`battery
      ensures BatteryMatches(battery, LearnBattery(known, now, voltage, current, remaining))
    {
      UpdateBattery(voltage, current, remaining, now);
      BatteryLearned(old(battery), battery, known, now, voltage, current, remaining);
    }

    /** The battery part of a system status, if it has one. */
    method TakeSystemBattery(voltage: Option<Float>, current: Option<Float>, remaining: Option<int>, now: Time)
      requires BatteryMatches(battery, known)
      modifies this`battery
      ensures BatteryMatches(battery, LearnBattery(known, now, voltage, current, remaining))
    {
      if voltage.Some? || current.Some? || remaining.Some? {
        TakeBattery(voltage, current, remaining, now);
      }
    }

    method OnBattery(voltage: Option<Float>, current: Option<Float>, remaining: Option<int>, now: Time)
      requires Valid() && clock <= now
      modifies this
      ensures Valid() && clock == now && log == old(log) + [Stamped(now, Battery(voltage, current, remaining))]
    {
      TakeBattery(voltage, current, remaining, now);
      Record(Stamped(now, Battery(voltage, current, remaining)));
    }

    method OnBatteryArmingVoltage(voltage: Float, now: Time)
      requires Valid() && clock <= now
      modifies this
      ensures Valid() && clock == now && log == old(log) + [Stamped(now, ArmingVoltage(voltage))]
    {
      status := status.(armingVoltage := Some(if Finite(0.0).Less(voltage) then voltage else Finite(0.0)));
      Record(Stamped(now, ArmingVoltage(voltage)));
    }

    method OnAutopilotMetadata(metadata: Metadata, ghost now: Time)
      requires Valid() && clock <= now
      modifies this
      ensures Valid() && clock == now && log == old(log) + [Stamped(now, AutopilotVersion(metadata))]
    {
      status := status.(metadata := Some(metadata));
      Record(Stamped(now, AutopilotVersion(metadata)));
    }

    method OnSystemStatus(enabled: bv32, healthy: bv32, voltage: Option<Float>, current: Option<Float>,
                          remaining: Option<int>, now: Time)
      requires Valid() && clock <= now
      modifies this
      ensures Valid() && clock == now
      ensures log == old(log) + [Stamped(now, SystemStatus(enabled, healthy, voltage, current, remaining))]
    {
      status := status.(sensorsEnabled := enabled, sensorsHealthy := healthy, lastSystemStatus := Some(now));
      TakeSystemBattery(voltage, current, remaining, now);
      Record(Stamped(now, SystemStatus(enabled, healthy, voltage, current, remaining)));
    }

    method OnStatusText(severity: nat, text: string, now: Time)
      requires Valid() && clock <= now
      modifies this
      ensures Valid() && clock == now && log == old(log) + [Stamped(now, StatusText(severity, text))]
    {
      ghost var s := Stamped(now, StatusText(severity, text));
      if text == "" || (severity > SEVERITY_WARNING && !ContainsIgnoringCase(text, "prearm:")) {
        Record(s);
        return;
      }
      TakeWarning(severity, text, now);
    }

    /** A notable text is noted, and everything else stays. */
    method TakeWarning(severity: nat, text: string, now: Time)
      requires Valid() && clock <= now && Notable(severity, text)
      modifies this`warnings, this`log, this`known, this`clock
      ensures Valid() && clock == now && log == old(log) + [Stamped(now, StatusText(severity, text))]
    {
      ghost var s := Stamped(now, StatusText(severity, text));
      NoteKeepsMatch(warnings, known, clock, s);
      NoteWarning(text, now);
      LearnedAppend(log, s);
      log, known, clock := log + [s], Learn(known, s), now;
    }

    method NoteWarning(text: string, now: Time)
      modifies this`warnings
      ensures warnings == Note(old(warnings), text, now)
    {
      var existing := 0;
      assert warnings[0..] == warnings;
      while existing < |warnings| && warnings[existing].text != text
        invariant existing <= |warnings|
        invariant Note(warnings, text, now) == warnings[..existing] + Note(warnings[existing..], text, now)
      {
        assert warnings[existing..][1..] == warnings[existing + 1..];
        existing := existing + 1;
      }
      if existing < |warnings| {
        assert warnings[existing..][1..] == warnings[existing + 1..];
        warnings := warnings[existing := WarningEntry(text, now)];
      } else {
        warnings := warnings + [WarningEntry(text, now)];
      }
    }

    /**
     Prunes the warnings and exposes what the log says at `now`. The log is not changed, so
     taking a snapshot cannot change what a later one shows.
     */
    method Snapshot(now: Time) returns (r: VehicleSnapshot)
      requires Valid() && clock <= now
      modifies this`warnings, this`clock
      ensures Valid() && clock == now
      ensures r.(warnings := []) == Show(Learned(log), now)
      ensures TextsAre(r.warnings, RecentWarnings(Learned(log), now, WARNING_TIMEOUT))
    {
      PruneKeepsMatch(warnings, known, clock, now);
      warnings := Prune(warnings, now);
      clock := now;
      r := VehicleSnapshot(
        connected := IsFresh(identity.lastHeartbeat, now, HEARTBEAT_TIMEOUT),
        armed := identity.armed,
        systemId := identity.systemId,
        componentId := identity.componentId,
        vehicleType := identity.vehicleType,
        autopilotType := identity.autopilotType,
        systemStatus := identity.systemStatus,
        flightMode := identity.flightMode,
        metadata := status.metadata);
      assert r == Identified(known, now);
      if r.connected {
        var p := ViewPosition(position, known, now);
        var hasBatteryWarning, hasRecentWarning := WarningFlags(warnings, known, now);
        var b := ViewBattery(battery, status, known, hasBatteryWarning, now);
        var a := ViewReadiness(status, known, p, b, hasRecentWarning, now);
        r := r.(position := p, battery := b, readiness := a);
      }
      var texts := TextsOf(warnings);
      r := r.(warnings := texts);
    }
  }

  method WarningFlags(warnings: seq<WarningEntry>, ghost k: Knowledge, now: Time)
    returns (hasBatteryWarning: bool, hasRecentWarning: bool)
    requires WarningsMatch(warnings, k, now)
    requires forall t :: Listed(warnings, t) <==> t in RecentWarnings(k, now, WARNING_TIMEOUT)
    ensures hasBatteryWarning == BatteryWarned(k, now)
    ensures hasRecentWarning <==> RecentWarnings(k, now, BLOCKING_WARNING_TIMEOUT) != {}
  {
    hasBatteryWarning := exists i :: 0 <= i < |warnings| && MentionsBattery(warnings[i].text);
    BatteryWarningIsRecent(warnings, k, hasBatteryWarning, now);
    hasRecentWarning := exists i :: 0 <= i < |warnings| && now - warnings[i].lastSeen <= BLOCKING_WARNING_TIMEOUT;
    BlockingWarningIsRecent(warnings, k, hasRecentWarning, now);
  }

  method TextsOf(warnings: seq<WarningEntry>) returns (texts: seq<string>)
    ensures |texts| == |warnings| && forall i :: 0 <= i < |texts| ==> texts[i] == warnings[i].text
    ensures forall t :: t in texts <==> Listed(warnings, t)
  {
    texts := seq(|warnings|, i requires 0 <= i < |warnings| => warnings[i].text);
    forall t ensures t in texts <==> Listed(warnings, t) {
      if Listed(warnings, t) {
        var i :| 0 <= i < |warnings| && warnings[i].text == t;
        assert texts[i] == t;
      }
    }
  }

  method ViewPosition(f: PositionFields, ghost k: Knowledge, now: Time) returns (r: PositionView)
    requires PositionMatches(f, k)
    ensures r == ShowPosition(k, now)
  {
    r := PositionView();
    if IsFresh(f.lastGps, now, GPS_TIMEOUT) {
      var ready := f.fix.Some? && f.fix.value >= MINIMUM_FIX;
      r := r.(fix := f.fix, satellites := f.satellites, gpsReady := ready, navigationReady := ready);
    }
    if IsFresh(f.lastGlobalPosition, now, GLOBAL_POSITION_TIMEOUT) {
      r := r.(relativeAltitude := f.relativeAltitude);
    }
    if IsFresh(f.lastLocalPosition, now, LOCAL_POSITION_TIMEOUT) {
      r := r.(local := f.local);
    }
    if IsFresh(f.lastAttitude, now, ATTITUDE_TIMEOUT) {
      r := r.(attitude := f.attitude);
    }
  }

  method ViewBattery(f: BatteryFields, g: StatusFields, ghost k: Knowledge, hasBatteryWarning: bool, now: Time)
    returns (r: BatteryView)
    requires BatteryMatches(f, k) && StatusMatches(g, k) && hasBatteryWarning == BatteryWarned(k, now)
    ensures r == ShowBattery(k, now)
  {
    r := BatteryView();
    var batterySensorHealthy :=
      IsFresh(g.lastSystemStatus, now, SYSTEM_STATUS_TIMEOUT) &&
      g.sensorsEnabled & BATTERY_SENSOR != 0 && g.sensorsHealthy & BATTERY_SENSOR != 0;
    assert batterySensorHealthy == BatterySensorHealthy(k, now);
    if IsFresh(f.lastCurrent, now, BATTERY_TIMEOUT) {
      r := r.(current := f.current);
    }
    if IsFresh(f.lastRemaining, now, BATTERY_TIMEOUT) {
      r := r.(remaining := f.remaining);
    }
    if IsFresh(f.lastVoltage, now, BATTERY_TIMEOUT) {
      var voltageMeetsArmingThreshold :=
        f.voltage.Some? && g.armingVoltage.Some? &&
        (g.armingVoltage.value.IsZero() || f.voltage.value.AtLeast(g.armingVoltage.value));
      assert voltageMeetsArmingThreshold == VoltageMet(k, now);
      var ready :=
        voltageMeetsArmingThreshold && batterySensorHealthy && !hasBatteryWarning &&
        (r.remaining.None? || r.remaining.value >= MINIMUM_BATTERY_PERCENT);
      r := r.(voltage := f.voltage, armingVoltage := g.armingVoltage, ready := ready);
    }
  }

  method ViewHealth(g: StatusFields, ghost k: Knowledge, now: Time) returns (systemStatusFresh: bool, healthOk: bool)
    requires StatusMatches(g, k)
    ensures systemStatusFresh == Within(k.health, now, SYSTEM_STATUS_TIMEOUT).Some?
    ensures healthOk == HealthOk(k, now)
  {
    systemStatusFresh := IsFresh(g.lastSystemStatus, now, SYSTEM_STATUS_TIMEOUT);
    StatusIsShown(g, k, now);
    healthOk := systemStatusFresh && g.sensorsEnabled & !g.sensorsHealthy == 0;
  }

  lemma StatusIsShown(g: StatusFields, k: Knowledge, now: Time)
    requires StatusMatches(g, k)
    ensures Within(k.health, now, SYSTEM_STATUS_TIMEOUT) ==
      if IsFresh(g.lastSystemStatus, now, SYSTEM_STATUS_TIMEOUT)
      then Some((g.sensorsEnabled, g.sensorsHealthy)) else None
  {
  }

  method ViewReadiness(g: StatusFields, ghost k: Knowledge, p: PositionView, b: BatteryView,
                       hasRecentWarning: bool, now: Time)
    returns (r: ReadinessView)
    requires StatusMatches(g, k) && p == ShowPosition(k, now) && b == ShowBattery(k, now)
    requires hasRecentWarning <==> RecentWarnings(k, now, BLOCKING_WARNING_TIMEOUT) != {}
    ensures r == ShowReadiness(k, now)
  {
    var systemStatusFresh, healthOk := ViewHealth(g, k, now);
    assert p.navigationReady == GpsReady(k, now) && b.ready == BatteryReady(k, now);
    r := ReadinessView(systemStatusFresh, healthOk, p.navigationReady && b.ready && healthOk && !hasRecentWarning);
  }

  lemma BatteryWarningIsRecent(warnings: seq<WarningEntry>, k: Knowledge, hasBatteryWarning: bool, now: Time)
    requires forall t :: Listed(warnings, t) <==> t in RecentWarnings(k, now, WARNING_TIMEOUT)
    requires hasBatteryWarning == exists i :: 0 <= i < |warnings| && MentionsBattery(warnings[i].text)
    ensures hasBatteryWarning == BatteryWarned(k, now)
  {
    if hasBatteryWarning {
      var i :| 0 <= i < |warnings| && MentionsBattery(warnings[i].text);
      assert Listed(warnings, warnings[i].text);
    }
    if t :| t in RecentWarnings(k, now, WARNING_TIMEOUT) && MentionsBattery(t) {
      assert Listed(warnings, t);
    }
  }

  lemma BlockingWarningIsRecent(warnings: seq<WarningEntry>, k: Knowledge, hasRecentWarning: bool, now: Time)
    requires WarningsMatch(warnings, k, now)
    requires hasRecentWarning ==
      exists i :: 0 <= i < |warnings| && now - warnings[i].lastSeen <= BLOCKING_WARNING_TIMEOUT
    ensures hasRecentWarning <==> RecentWarnings(k, now, BLOCKING_WARNING_TIMEOUT) != {}
  {
    if hasRecentWarning {
      var i :| 0 <= i < |warnings| && now - warnings[i].lastSeen <= BLOCKING_WARNING_TIMEOUT;
      assert EntryMatches(warnings[i], k);
      assert warnings[i].text in RecentWarnings(k, now, BLOCKING_WARNING_TIMEOUT);
    }
    if t :| t in RecentWarnings(k, now, BLOCKING_WARNING_TIMEOUT) {
      assert Recent(k, t, now, WARNING_TIMEOUT);
      var i :| 0 <= i < |warnings| && warnings[i].text == t;
      assert EntryMatches(warnings[i], k);
    }
  }
}
