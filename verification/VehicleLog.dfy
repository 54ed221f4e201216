/**
 What a vehicle observer ought to know, told as a plain log of everything it accepted.

 `Learned` is the latest valid sample of each kind in the current heartbeat session (`KnownIffSampled` and
 `LatestIsKnown` say so by positions in the log), and `Show` exposes those within their own timeouts.
 `VehicleState` keeps no log; it is proved to show exactly `Show(Learned(log), now)`.
 */
module VehicleLog {
  import opened Basics

  const HEARTBEAT_TIMEOUT := 3 * SECOND
  const GPS_TIMEOUT := 5 * SECOND
  const GLOBAL_POSITION_TIMEOUT := 2 * SECOND
  const LOCAL_POSITION_TIMEOUT := 2 * SECOND
  const ATTITUDE_TIMEOUT := 2 * SECOND
  const BATTERY_TIMEOUT := 10 * SECOND
  const SYSTEM_STATUS_TIMEOUT := 5 * SECOND
  const WARNING_TIMEOUT := 30 * SECOND
  const BLOCKING_WARNING_TIMEOUT := 5 * SECOND
  const MINIMUM_BATTERY_PERCENT := 20
  const MAXIMUM_BATTERY_PERCENT := 100
  const MINIMUM_FIX := 3
  const SEVERITY_WARNING := 4
  const BATTERY_SENSOR: bv32 := 0x200_0000
  const SAFETY_ARMED: bv8 := 128

  datatype Metadata = Metadata(
    major: nat, minor: nat, patch: nat, release: nat,
    capabilities: nat, board: nat, vendor: nat, product: nat)

  datatype Event =
    | Heartbeat(system: nat, component: nat, vehicleType: nat, autopilot: nat,
                baseMode: bv8, customMode: nat, status: nat)
    | Gps(fix: nat, satellites: nat)
    | GlobalPosition(relativeAltitudeMm: int)
    | LocalPosition(north: Float, east: Float, down: Float)
    | Attitude(roll: Float, pitch: Float, yaw: Float, yawRate: Float)
    | Battery(voltage: Option<Float>, current: Option<Float>, remaining: Option<int>)
    | SystemStatus(enabled: bv32, healthy: bv32,
                   voltage: Option<Float>, current: Option<Float>, remaining: Option<int>)
    | ArmingVoltage(threshold: Float)
    | AutopilotVersion(metadata: Metadata)
    | StatusText(severity: nat, text: string)

  datatype Stamped = Stamped(at: Time, event: Event)

  type Log = seq<Stamped>

  /** What an event can be a sample of. */
  datatype Kind =
    | Fix | Altitude | LocalPoint | Orientation
    | Voltage | Current | Remaining | Health
    | Threshold | Firmware | Warning(warningText: string)

  // ----- texts

  function LowerChar(c: char): char {
    if 'A' <= c <= 'Z' then c - 'A' + 'a' else c
  }

  predicate ContainsIgnoringCase(text: string, expected: string) {
    exists i :: 0 <= i <= |text| - |expected| && OccursAt(text, expected, i)
  }

  predicate OccursAt(text: string, expected: string, i: int)
    requires 0 <= i <= |text| - |expected|
  {
    forall k :: 0 <= k < |expected| ==> LowerChar(text[i + k]) == expected[k]
  }

  predicate Notable(severity: nat, text: string) {
    text != "" && (severity <= SEVERITY_WARNING || ContainsIgnoringCase(text, "prearm:"))
  }

  predicate MentionsBattery(text: string) {
    ContainsIgnoringCase(text, "battery")
  }

  // ----- samples

  predicate ValidVoltage(voltage: Option<Float>) {
    voltage.Some? && voltage.value.Finite? && voltage.value.r > 0.0
  }

  predicate ValidCurrent(current: Option<Float>) {
    current.Some? && current.value.Finite? && current.value.r >= 0.0
  }

  predicate ValidRemaining(remaining: Option<int>) {
    remaining.Some? && 0 <= remaining.value <= MAXIMUM_BATTERY_PERCENT
  }

  predicate CarriesBattery(e: Event) {
    e.Battery? || e.SystemStatus?
  }

  /** True if `e` is a valid sample of `kind`. */
  predicate Carries(kind: Kind, e: Event) {
    match kind
    case Fix => e.Gps?
    case Altitude => e.GlobalPosition?
    case LocalPoint => e.LocalPosition?
    case Orientation => e.Attitude?
    case Voltage => CarriesBattery(e) && ValidVoltage(e.voltage)
    case Current => CarriesBattery(e) && ValidCurrent(e.current)
    case Remaining => CarriesBattery(e) && ValidRemaining(e.remaining)
    case Health => e.SystemStatus?
    case Threshold => e.ArmingVoltage?
    case Firmware => e.AutopilotVersion?
    case Warning(text) => e.StatusText? && e.text == text && Notable(e.severity, text)
  }

  // ----- sessions

  function LastHeartbeat(log: Log): (h: Option<Stamped>)
    ensures h.Some? ==> h.value.event.Heartbeat?
  {
    if log == [] then None
    else if log[|log| - 1].event.Heartbeat? then Some(log[|log| - 1])
    else LastHeartbeat(log[..|log| - 1])
  }

  /** True if `s` opens a new session: a heartbeat after silence, or from another controller. */
  predicate Breaks(last: Option<Stamped>, s: Stamped) {
    s.event.Heartbeat? && last.Some? && last.value.event.Heartbeat? &&
    (s.at - last.value.at > HEARTBEAT_TIMEOUT ||
     last.value.event.system != s.event.system ||
     last.value.event.component != s.event.component)
  }

  /** Where the current session begins. */
  function SessionStart(log: Log): (start: nat)
    ensures start <= |log|
    ensures start < |log| || log == []
  {
    if log == [] then 0
    else if Breaks(LastHeartbeat(log[..|log| - 1]), log[|log| - 1]) then |log| - 1
    else SessionStart(log[..|log| - 1])
  }

  /** Position `i` holds the last sample of `kind` since the session began. */
  ghost predicate IsLatest(log: Log, kind: Kind, i: int) {
    SessionStart(log) <= i < |log| && Carries(kind, log[i].event) &&
    forall j :: i < j < |log| ==> !Carries(kind, log[j].event)
  }

  // ----- knowledge, gained one event at a time

  datatype Cell<+T> = Unseen | Seen(at: Time, value: T)

  datatype Knowledge = Knowledge(
    heartbeat: Cell<Event>,
    fix: Cell<(nat, nat)>,
    altitude: Cell<int>,
    localPoint: Cell<(Float, Float, Float)>,
    orientation: Cell<(Float, Float, Float, Float)>,
    voltage: Cell<Float>,
    current: Cell<Float>,
    remaining: Cell<int>,
    health: Cell<(bv32, bv32)>,
    threshold: Cell<Float>,
    firmware: Cell<Metadata>,
    warnings: map<string, Time>)

  const NOTHING := Knowledge(
    Unseen, Unseen, Unseen, Unseen, Unseen, Unseen, Unseen, Unseen, Unseen, Unseen, Unseen, map[])

  predicate Restarts(last: Cell<Event>, at: Time, system: nat, component: nat) {
    last.Seen? && last.value.Heartbeat? &&
    (at - last.at > HEARTBEAT_TIMEOUT || last.value.system != system || last.value.component != component)
  }

  function LearnBattery(k: Knowledge, at: Time,
                        voltage: Option<Float>, current: Option<Float>, remaining: Option<int>): Knowledge {
    k.(voltage := if ValidVoltage(voltage) then Seen(at, voltage.value) else k.voltage,
       current := if ValidCurrent(current) then Seen(at, current.value) else k.current,
       remaining := if ValidRemaining(remaining) then Seen(at, remaining.value) else k.remaining)
  }

  function Learn(k: Knowledge, s: Stamped): Knowledge {
    match s.event
    case Heartbeat(system, component, _, _, _, _, _) =>
      (if Restarts(k.heartbeat, s.at, system, component) then NOTHING else k).(heartbeat := Seen(s.at, s.event))
    case Gps(fix, satellites) => k.(fix := Seen(s.at, (fix, satellites)))
    case GlobalPosition(altitude) => k.(altitude := Seen(s.at, altitude))
    case LocalPosition(north, east, down) => k.(localPoint := Seen(s.at, (north, east, down)))
    case Attitude(roll, pitch, yaw, yawRate) => k.(orientation := Seen(s.at, (roll, pitch, yaw, yawRate)))
    case Battery(voltage, current, remaining) => LearnBattery(k, s.at, voltage, current, remaining)
    case SystemStatus(enabled, healthy, voltage, current, remaining) =>
      LearnBattery(k, s.at, voltage, current, remaining).(health := Seen(s.at, (enabled, healthy)))
    case ArmingVoltage(threshold) => k.(threshold := Seen(s.at, threshold))
    case AutopilotVersion(metadata) => k.(firmware := Seen(s.at, metadata))
    case StatusText(severity, text) =>
      if Notable(severity, text) then k.(warnings := k.warnings[text := s.at]) else k
  }

  function Learned(log: Log): Knowledge {
    if log == [] then NOTHING else Learn(Learned(log[..|log| - 1]), log[|log| - 1])
  }

  lemma LearnedAppend(log: Log, s: Stamped)
    ensures Learned(log + [s]) == Learn(Learned(log), s)
  {
    assert (log + [s])[..|log|] == log;
  }

  lemma {:induction false} LearnedHeartbeat(log: Log)
    ensures var last := LastHeartbeat(log);
      Learned(log).heartbeat == if last.None? then Unseen else Seen(last.value.at, last.value.event)
  {
    if log != [] {
      LearnedHeartbeat(log[..|log| - 1]);
    }
  }

  // ----- what is known, kind by kind

  /** A measured value, whichever its kind. */
  datatype Reading =
    | FixReading(fix: (nat, nat))
    | AltitudeReading(altitude: int)
    | PointReading(point: (Float, Float, Float))
    | TurnReading(turn: (Float, Float, Float, Float))
    | VoltageReading(volts: Float)
    | CurrentReading(amperes: Float)
    | RemainingReading(percent: int)
    | HealthReading(sensors: (bv32, bv32))
    | ThresholdReading(threshold: Float)
    | FirmwareReading(firmware: Metadata)
    | WarningReading

  datatype StampedReading = StampedReading(at: Time, reading: Reading)

  /** What a valid sample says. */
  function ReadingOf(kind: Kind, e: Event): Reading
    requires Carries(kind, e)
  {
    match kind
    case Fix => FixReading((e.fix, e.satellites))
    case Altitude => AltitudeReading(e.relativeAltitudeMm)
    case LocalPoint => PointReading((e.north, e.east, e.down))
    case Orientation => TurnReading((e.roll, e.pitch, e.yaw, e.yawRate))
    case Voltage => VoltageReading(e.voltage.value)
    case Current => CurrentReading(e.current.value)
    case Remaining => RemainingReading(e.remaining.value)
    case Health => HealthReading((e.enabled, e.healthy))
    case Threshold => ThresholdReading(e.threshold)
    case Firmware => FirmwareReading(e.metadata)
    case Warning(_) => WarningReading
  }

  /** What is known of `kind`. */
  function Known(k: Knowledge, kind: Kind): Option<StampedReading> {
    match kind
    case Fix => if k.fix.Unseen? then None else Some(StampedReading(k.fix.at, FixReading(k.fix.value)))
    case Altitude =>
      if k.altitude.Unseen? then None else Some(StampedReading(k.altitude.at, AltitudeReading(k.altitude.value)))
    case LocalPoint =>
      if k.localPoint.Unseen? then None else Some(StampedReading(k.localPoint.at, PointReading(k.localPoint.value)))
    case Orientation =>
      if k.orientation.Unseen? then None
      else Some(StampedReading(k.orientation.at, TurnReading(k.orientation.value)))
    case Voltage => if k.voltage.Unseen?
      then None else Some(StampedReading(k.voltage.at, VoltageReading(k.voltage.value)))
    case Current => if k.current.Unseen?
      then None else Some(StampedReading(k.current.at, CurrentReading(k.current.value)))
    case Remaining =>
      if k.remaining.Unseen? then None else Some(StampedReading(k.remaining.at, RemainingReading(k.remaining.value)))
    case Health => if k.health.Unseen? then None else Some(StampedReading(k.health.at, HealthReading(k.health.value)))
    case Threshold =>
      if k.threshold.Unseen? then None else Some(StampedReading(k.threshold.at, ThresholdReading(k.threshold.value)))
    case Firmware =>
      if k.firmware.Unseen? then None else Some(StampedReading(k.firmware.at, FirmwareReading(k.firmware.value)))
    case Warning(text) => if text in k.warnings then Some(StampedReading(k.warnings[text], WarningReading)) else None
  }

  /** A valid sample replaces what was known of its kinds; a session break forgets everything. */
  lemma LearnKnown(k: Knowledge, s: Stamped, kind: Kind)
    ensures Known(Learn(k, s), kind) ==
      if Carries(kind, s.event) then Some(StampedReading(s.at, ReadingOf(kind, s.event)))
      else if s.event.Heartbeat? && Restarts(k.heartbeat, s.at, s.event.system, s.event.component) then None
      else Known(k, kind)
  {
    if s.event.Heartbeat? {
      HeartbeatKnown(k, s, kind);
    } else if CarriesBattery(s.event) {
      BatteryKnown(k, s.at, s.event.voltage, s.event.current, s.event.remaining, kind);
      ReportKnown(k, s, kind);
    } else {
      SampleKnown(k, s, kind);
    }
  }

  lemma HeartbeatKnown(k: Knowledge, s: Stamped, kind: Kind)
    requires s.event.Heartbeat?
    ensures !Carries(kind, s.event)
    ensures Known(Learn(k, s), kind) ==
      if Restarts(k.heartbeat, s.at, s.event.system, s.event.component) then None else Known(k, kind)
  {
  }

  lemma ReportKnown(k: Knowledge, s: Stamped, kind: Kind)
    requires CarriesBattery(s.event)
    ensures Known(Learn(k, s), kind) ==
      if kind.Health? && s.event.SystemStatus?
      then Some(StampedReading(s.at, ReadingOf(kind, s.event)))
      else Known(LearnBattery(k, s.at, s.event.voltage, s.event.current, s.event.remaining), kind)
  {
  }

  lemma SampleKnown(k: Knowledge, s: Stamped, kind: Kind)
    requires !s.event.Heartbeat? && !CarriesBattery(s.event)
    ensures Known(Learn(k, s), kind) ==
      if Carries(kind, s.event) then Some(StampedReading(s.at, ReadingOf(kind, s.event))) else Known(k, kind)
  {
  }

  /** A battery report changes what is known of its own three kinds only. */
  lemma BatteryKnown(k: Knowledge, at: Time, voltage: Option<Float>, current: Option<Float>, remaining: Option<int>,
                     kind: Kind)
    ensures var learned := LearnBattery(k, at, voltage, current, remaining);
      Known(learned, kind) ==
        if kind.Voltage? && ValidVoltage(voltage) then Some(StampedReading(at, VoltageReading(voltage.value)))
        else if kind.Current? && ValidCurrent(current) then Some(StampedReading(at, CurrentReading(current.value)))
        else if kind.Remaining? && ValidRemaining(remaining)
        then Some(StampedReading(at, RemainingReading(remaining.value)))
        else Known(k, kind)
  {
  }

  ghost predicate NoneInSession(log: Log, kind: Kind) {
    forall j :: SessionStart(log) <= j < |log| ==> !Carries(kind, log[j].event)
  }

  ghost predicate Located(log: Log, known: Option<StampedReading>, kind: Kind, i: int) {
    if known.None? then NoneInSession(log, kind)
    else IsLatest(log, kind, i) && known.value == StampedReading(log[i].at, ReadingOf(kind, log[i].event))
  }

  /** Where the known sample of a kind sits in the log; an unknown kind has none in the session. */
  lemma {:induction false} LatestPosition(log: Log, kind: Kind) returns (i: int)
    ensures Located(log, Known(Learned(log), kind), kind, i)
  {
    i := |log| - 1;
    if log != [] {
      var last := i;
      LearnedHeartbeat(log[..last]);
      LearnKnown(Learned(log[..last]), log[last], kind);
      if !Carries(kind, log[last].event) && !Breaks(LastHeartbeat(log[..last]), log[last]) {
        i := LatestPosition(log[..last], kind);
        SameLatest(log, last, kind, i);
      }
    }
  }

  lemma SameLatest(log: Log, last: int, kind: Kind, i: int)
    requires last == |log| - 1 >= 0 && !Carries(kind, log[last].event)
    requires !Breaks(LastHeartbeat(log[..last]), log[last])
    ensures IsLatest(log, kind, i) <==> IsLatest(log[..last], kind, i)
    ensures NoneInSession(log, kind) <==> NoneInSession(log[..last], kind)
  {
    assert forall j :: 0 <= j < last ==> log[..last][j] == log[j];
  }

  /** Something is known of a kind exactly when the session holds a valid sample. */
  lemma KnownIffSampled(log: Log, kind: Kind)
    ensures Known(Learned(log), kind).Some? <==> exists i :: IsLatest(log, kind, i)
  {
    var i := LatestPosition(log, kind);
  }

  /** What is known of a kind is what the last valid sample of the session said, and when. */
  lemma LatestIsKnown(log: Log, kind: Kind, i: int)
    requires IsLatest(log, kind, i)
    ensures Known(Learned(log), kind) == Some(StampedReading(log[i].at, ReadingOf(kind, log[i].event)))
  {
    var p := LatestPosition(log, kind);
    OneLatest(log, kind, i, p);
  }

  /** Both for all positions at once. */
  lemma LearnedIsLatest(log: Log, kind: Kind)
    ensures Known(Learned(log), kind).Some? <==> exists i :: IsLatest(log, kind, i)
    ensures forall i :: IsLatest(log, kind, i) ==>
      Known(Learned(log), kind) == Some(StampedReading(log[i].at, ReadingOf(kind, log[i].event)))
  {
    KnownIffSampled(log, kind);
    forall i | IsLatest(log, kind, i)
      ensures Known(Learned(log), kind) == Some(StampedReading(log[i].at, ReadingOf(kind, log[i].event)))
    {
      LatestIsKnown(log, kind, i);
    }
  }

  lemma OneLatest(log: Log, kind: Kind, i: int, j: int)
    ensures IsLatest(log, kind, i) && IsLatest(log, kind, j) ==> i == j
  {
  }

  /** The session begins at the last breaking heartbeat, or at the first entry if there is none. */
  lemma {:induction false} SessionStartIsLastBreak(log: Log)
    requires log != []
    ensures SessionStart(log) == 0 || Breaks(LastHeartbeat(log[..SessionStart(log)]), log[SessionStart(log)])
    ensures forall j :: SessionStart(log) < j < |log| ==> !Breaks(LastHeartbeat(log[..j]), log[j])
  {
    var shorter := log[..|log| - 1];
    if !Breaks(LastHeartbeat(shorter), log[|log| - 1]) && shorter != [] {
      SessionStartIsLastBreak(shorter);
      assert forall j :: 0 <= j < |shorter| ==> shorter[..j] == log[..j];
    }
  }

  // ----- the view

  datatype PositionView = PositionView(
    gpsReady: bool := false,
    navigationReady: bool := false,
    fix: Option<nat> := None,
    satellites: Option<nat> := None,
    relativeAltitude: Option<real> := None,
    local: Option<(Float, Float, Float)> := None,
    attitude: Option<(Float, Float, Float, Float)> := None)

  datatype BatteryView = BatteryView(
    ready: bool := false,
    voltage: Option<Float> := None,
    current: Option<Float> := None,
    remaining: Option<int> := None,
    armingVoltage: Option<Float> := None)

  datatype ReadinessView = ReadinessView(
    healthKnown: bool := false,
    healthOk: bool := false,
    armable: bool := false)

  datatype VehicleSnapshot = VehicleSnapshot(
    connected: bool := false,
    armed: bool := false,
    systemId: Option<nat> := None,
    componentId: Option<nat> := None,
    vehicleType: Option<nat> := None,
    autopilotType: Option<nat> := None,
    systemStatus: Option<nat> := None,
    flightMode: Option<nat> := None,
    metadata: Option<Metadata> := None,
    position: PositionView := PositionView(),
    battery: BatteryView := BatteryView(),
    readiness: ReadinessView := ReadinessView(),
    warnings: seq<string> := [])

  /** `std::max(0.0, threshold)`: a NaN or negative threshold turns the check off. */
  function ThresholdOf(threshold: Float): Float {
    if Finite(0.0).Less(threshold) then threshold else Finite(0.0)
  }

  predicate ThresholdMet(voltage: Float, threshold: Float) {
    ThresholdOf(threshold).IsZero() || voltage.AtLeast(ThresholdOf(threshold))
  }

  function Within<T>(cell: Cell<T>, now: Time, timeout: Time): Option<T> {
    if cell.Seen? && now - cell.at <= timeout then Some(cell.value) else None
  }

  predicate Recent(k: Knowledge, text: string, now: Time, timeout: Time) {
    text in k.warnings && now - k.warnings[text] <= timeout
  }

  /** The warning texts last seen no longer than `timeout` ago. */
  function RecentWarnings(k: Knowledge, now: Time, timeout: Time): set<string> {
    set t | t in k.warnings && Recent(k, t, now, timeout)
  }

  predicate Connected(k: Knowledge, now: Time) {
    Within(k.heartbeat, now, HEARTBEAT_TIMEOUT).Some?
  }

  predicate BatterySensorHealthy(k: Knowledge, now: Time) {
    var health := Within(k.health, now, SYSTEM_STATUS_TIMEOUT);
    health.Some? && health.value.0 & BATTERY_SENSOR != 0 && health.value.1 & BATTERY_SENSOR != 0
  }

  predicate VoltageMet(k: Knowledge, now: Time) {
    var voltage := Within(k.voltage, now, BATTERY_TIMEOUT);
    voltage.Some? && k.threshold.Seen? && ThresholdMet(voltage.value, k.threshold.value)
  }

  predicate LowCharge(k: Knowledge, now: Time) {
    var remaining := Within(k.remaining, now, BATTERY_TIMEOUT);
    remaining.Some? && remaining.value < MINIMUM_BATTERY_PERCENT
  }

  predicate BatteryWarned(k: Knowledge, now: Time) {
    exists t :: t in RecentWarnings(k, now, WARNING_TIMEOUT) && MentionsBattery(t)
  }

  predicate BatteryReady(k: Knowledge, now: Time) {
    VoltageMet(k, now) && BatterySensorHealthy(k, now) && !BatteryWarned(k, now) && !LowCharge(k, now)
  }

  predicate GpsReady(k: Knowledge, now: Time) {
    var fix := Within(k.fix, now, GPS_TIMEOUT);
    fix.Some? && fix.value.0 >= MINIMUM_FIX
  }

  predicate HealthOk(k: Knowledge, now: Time) {
    var health := Within(k.health, now, SYSTEM_STATUS_TIMEOUT);
    health.Some? && health.value.0 & !health.value.1 == 0
  }

  predicate Armable(k: Knowledge, now: Time) {
    GpsReady(k, now) && BatteryReady(k, now) && HealthOk(k, now) &&
    RecentWarnings(k, now, BLOCKING_WARNING_TIMEOUT) == {}
  }

  function Identified(k: Knowledge, now: Time): VehicleSnapshot {
    var metadata := if k.firmware.Seen? then Some(k.firmware.value) else None;
    if k.heartbeat.Unseen? || !k.heartbeat.value.Heartbeat? then VehicleSnapshot(metadata := metadata)
    else
      var e := k.heartbeat.value;
      VehicleSnapshot(
        connected := Connected(k, now),
        armed := e.baseMode & SAFETY_ARMED != 0,
        systemId := Some(e.system),
        componentId := Some(e.component),
        vehicleType := Some(e.vehicleType),
        autopilotType := Some(e.autopilot),
        systemStatus := Some(e.status),
        flightMode := Some(e.customMode),
        metadata := metadata)
  }

  function ShowPosition(k: Knowledge, now: Time): PositionView {
    var fix := Within(k.fix, now, GPS_TIMEOUT);
    var altitude := Within(k.altitude, now, GLOBAL_POSITION_TIMEOUT);
    PositionView(
      GpsReady(k, now),
      GpsReady(k, now),
      if fix.Some? then Some(fix.value.0) else None,
      if fix.Some? then Some(fix.value.1) else None,
      if altitude.Some? then Some(altitude.value as real / 1000.0) else None,
      Within(k.localPoint, now, LOCAL_POSITION_TIMEOUT),
      Within(k.orientation, now, ATTITUDE_TIMEOUT))
  }

  function ShowBattery(k: Knowledge, now: Time): BatteryView {
    var voltage := Within(k.voltage, now, BATTERY_TIMEOUT);
    BatteryView(
      BatteryReady(k, now),
      voltage,
      Within(k.current, now, BATTERY_TIMEOUT),
      Within(k.remaining, now, BATTERY_TIMEOUT),
      if voltage.Some? && k.threshold.Seen? then Some(ThresholdOf(k.threshold.value)) else None)
  }

  function ShowReadiness(k: Knowledge, now: Time): ReadinessView {
    ReadinessView(Within(k.health, now, SYSTEM_STATUS_TIMEOUT).Some?, HealthOk(k, now), Armable(k, now))
  }

  /**
   Everything exposed at `now`, except for the warning texts: their order depends on when
   snapshots were taken, so only their set (`RecentWarnings`) is a function of the log.
   */
  function Show(k: Knowledge, now: Time): VehicleSnapshot {
    var shown := Identified(k, now);
    if Connected(k, now)
    then shown.(position := ShowPosition(k, now), battery := ShowBattery(k, now), readiness := ShowReadiness(k, now))
    else shown
  }

  // ----- the link, by positions in the log

  /** Entry `h` is the last heartbeat of the log. */
  ghost predicate IsLastHeartbeat(log: Log, h: int) {
    0 <= h < |log| && log[h].event.Heartbeat? && forall j :: h < j < |log| ==> !log[j].event.Heartbeat?
  }

  ghost predicate LinkAlive(log: Log, now: Time) {
    exists h :: IsLastHeartbeat(log, h) && now - log[h].at <= 3 * SECOND
  }

  /** Where the last heartbeat is; without one there is none in the log. */
  lemma {:induction false} HeartbeatPosition(log: Log) returns (h: int)
    ensures LastHeartbeat(log).Some? ==> IsLastHeartbeat(log, h) && LastHeartbeat(log).value == log[h]
    ensures LastHeartbeat(log).None? ==> forall j :: 0 <= j < |log| ==> !log[j].event.Heartbeat?
  {
    h := |log| - 1;
    if log != [] && !log[h].event.Heartbeat? {
      var shorter := log[..h];
      assert forall j :: 0 <= j < h ==> shorter[j] == log[j];
      h := HeartbeatPosition(shorter);
    }
  }

  lemma OneLastHeartbeat(log: Log, h: int)
    ensures IsLastHeartbeat(log, h) ==> LastHeartbeat(log) == Some(log[h])
  {
    var p := HeartbeatPosition(log);
  }

  lemma HeartbeatIsLast(log: Log)
    ensures LastHeartbeat(log).Some? <==> exists h :: IsLastHeartbeat(log, h)
    ensures forall h :: IsLastHeartbeat(log, h) ==> LastHeartbeat(log) == Some(log[h])
  {
    var p := HeartbeatPosition(log);
    forall h | IsLastHeartbeat(log, h) ensures LastHeartbeat(log) == Some(log[h]) {
      OneLastHeartbeat(log, h);
    }
  }

  /** A vehicle is shown as connected exactly while its last heartbeat is at most 3 s old. */
  lemma ConnectedIsAlive(log: Log, now: Time)
    ensures Show(Learned(log), now).connected <==> LinkAlive(log, now)
    ensures Connected(Learned(log), now) <==> LinkAlive(log, now)
  {
    HeartbeatIsLast(log);
    LearnedHeartbeat(log);
  }

  // ----- armable, by positions in the log

  ghost predicate FixEvidence(log: Log, now: Time) {
    exists g :: IsLatest(log, Fix, g) && now - log[g].at <= 5 * SECOND && log[g].event.fix >= 3
  }

  ghost predicate VoltageEvidence(log: Log, now: Time) {
    exists v, r :: IsLatest(log, Voltage, v) && IsLatest(log, Threshold, r) &&
      now - log[v].at <= 10 * SECOND &&
      Suffices(log[v].event.voltage.value, log[r].event.threshold)
  }

  /** A voltage reaches a threshold; a NaN threshold is none. */
  predicate Suffices(voltage: Float, threshold: Float) {
    threshold.NaN? || voltage.AtLeast(threshold)
  }

  /**
   What clamping the threshold at 0 does: for a valid voltage the check passes exactly if the voltage
   reaches the reported threshold, except that a NaN threshold, which no voltage reaches, always
   passes. A negative threshold makes no difference: every valid voltage reaches it anyway.
   */
  lemma ClampedThreshold(voltage: Float, threshold: Float)
    requires ValidVoltage(Some(voltage))
    ensures ThresholdMet(voltage, threshold) <==> Suffices(voltage, threshold)
    ensures threshold.NaN? ==> ThresholdMet(voltage, threshold) && !voltage.AtLeast(threshold)
    ensures !threshold.NaN? ==> (ThresholdMet(voltage, threshold) <==> voltage.AtLeast(threshold))
    ensures threshold.Finite? && threshold.r <= 0.0 ==> voltage.AtLeast(threshold)
  {
  }

  ghost predicate HealthEvidence(log: Log, now: Time) {
    exists s :: IsLatest(log, Health, s) && now - log[s].at <= 5 * SECOND && HealthCovers(log[s].event)
  }

  predicate HealthCovers(e: Event)
    requires e.SystemStatus?
  {
    e.enabled & !e.healthy == 0 && e.enabled & 0x200_0000 != 0
  }

  ghost predicate LowChargeEvidence(log: Log, now: Time) {
    exists p :: IsLatest(log, Remaining, p) && now - log[p].at <= 10 * SECOND &&
      log[p].event.remaining.value < 20
  }

  /** A battery warning blocks for 30 s after its last occurrence, any other for 5 s. */
  ghost predicate WarningEvidence(log: Log, text: string, now: Time) {
    exists w :: IsLatest(log, Warning(text), w) &&
      now - log[w].at <= (if MentionsBattery(text) then 30 * SECOND else 5 * SECOND)
  }

  /**
   A vehicle is shown as armable exactly when its link is alive and the session's log holds the evidence:
   a recent 3D fix, a recent voltage that reaches the reported threshold, a recent healthy status that
   covers the battery, no recent low charge and no blocking warning.
   */
  lemma ArmableIsEvidence(log: Log, now: Time)
    ensures Show(Learned(log), now).readiness.armable <==>
      && LinkAlive(log, now)
      && FixEvidence(log, now)
      && VoltageEvidence(log, now)
      && HealthEvidence(log, now)
      && !LowChargeEvidence(log, now)
      && forall t :: !WarningEvidence(log, t, now)
  {
    ConnectedIsAlive(log, now);
    ReadyIsEvidence(log, now);
  }

  /** The same without the link. */
  lemma ReadyIsEvidence(log: Log, now: Time)
    ensures Armable(Learned(log), now) <==>
      && FixEvidence(log, now)
      && VoltageEvidence(log, now)
      && HealthEvidence(log, now)
      && !LowChargeEvidence(log, now)
      && forall t :: !WarningEvidence(log, t, now)
  {
    var k := Learned(log);
    GpsIsEvidence(log, now);
    VoltageIsEvidence(log, now);
    HealthIsEvidence(log, now);
    LowChargeIsEvidence(log, now);
    forall t ensures WarningEvidence(log, t, now) <==> BlocksArming(k, t, now) {
      WarningIsEvidence(log, t, now);
    }
    UnblockedMeansNoWarning(k, now);
  }

  lemma GpsIsEvidence(log: Log, now: Time)
    ensures GpsReady(Learned(log), now) <==> FixEvidence(log, now)
  {
    LearnedIsLatest(log, Fix);
  }

  lemma VoltageIsEvidence(log: Log, now: Time)
    ensures VoltageMet(Learned(log), now) <==> VoltageEvidence(log, now)
  {
    LearnedIsLatest(log, Voltage);
    LearnedIsLatest(log, Threshold);
    forall v, r | IsLatest(log, Voltage, v) && IsLatest(log, Threshold, r)
      ensures ThresholdMet(log[v].event.voltage.value, log[r].event.threshold) <==>
        Suffices(log[v].event.voltage.value, log[r].event.threshold)
    {
      ClampedThreshold(log[v].event.voltage.value, log[r].event.threshold);
    }
  }

  /** A log that has everything but a charged battery: one millivolt, and the threshold `threshold`. */
  function FlatBatteryLog(threshold: Float): Log {
    [Stamped(0, Heartbeat(1, 1, 2, 3, 0, 0, 3)),
     Stamped(0, Gps(3, 9)),
     Stamped(0, SystemStatus(BATTERY_SENSOR, BATTERY_SENSOR, Some(Finite(0.001)), None, None)),
     Stamped(0, ArmingVoltage(threshold))]
  }

  /** With that log a NaN threshold leaves the vehicle armable, and any threshold above the voltage does not. */
  lemma NanThresholdArms(threshold: Float)
    ensures Show(Learned(FlatBatteryLog(threshold)), 0).readiness.armable <==> Suffices(Finite(0.001), threshold)
    ensures Show(Learned(FlatBatteryLog(NaN)), 0).readiness.armable
  {
    FlatBatteryIsLearned(threshold);
    FlatBatteryIsLearned(NaN);
    ClampedThreshold(Finite(0.001), threshold);
    ClampedThreshold(Finite(0.001), NaN);
  }

  lemma FlatBatteryIsLearned(threshold: Float)
    ensures var k := Learned(FlatBatteryLog(threshold));
      k.heartbeat.Seen? && k.heartbeat.at == 0 && k.fix == Seen(0, (3, 9)) &&
        k.health == Seen(0, (BATTERY_SENSOR, BATTERY_SENSOR)) &&
      k.voltage == Seen(0, Finite(0.001)) && k.remaining == Unseen && k.threshold == Seen(0, threshold) &&
      k.warnings == map[]
  {
    var log := FlatBatteryLog(threshold);
    assert log[..3] + [log[3]] == log && log[..2] + [log[2]] == log[..3] && log[..1] + [log[1]] == log[..2];
    assert [] + [log[0]] == log[..1];
    LearnedAppend([], log[0]);
    LearnedAppend(log[..1], log[1]);
    LearnedAppend(log[..2], log[2]);
    LearnedAppend(log[..3], log[3]);
  }

  /** With no enabled sensor unhealthy, an enabled battery sensor is a healthy one. */
  lemma HealthIsEvidence(log: Log, now: Time)
    ensures HealthOk(Learned(log), now) && BatterySensorHealthy(Learned(log), now) <==> HealthEvidence(log, now)
  {
    LearnedIsLatest(log, Health);
    forall e: Event | e.SystemStatus?
      ensures HealthCovers(e) <==>
        e.enabled & !e.healthy == 0 && e.enabled & BATTERY_SENSOR != 0 && e.healthy & BATTERY_SENSOR != 0
    {
      CoveredSensorIsHealthy(e.enabled, e.healthy);
    }
  }

  lemma CoveredSensorIsHealthy(enabled: bv32, healthy: bv32)
    ensures enabled & !healthy == 0 && enabled & BATTERY_SENSOR != 0 ==> healthy & BATTERY_SENSOR != 0
  {
  }

  lemma LowChargeIsEvidence(log: Log, now: Time)
    ensures LowCharge(Learned(log), now) <==> LowChargeEvidence(log, now)
  {
    LearnedIsLatest(log, Remaining);
  }

  predicate BlocksArming(k: Knowledge, text: string, now: Time) {
    Recent(k, text, now, BLOCKING_WARNING_TIMEOUT) ||
    (MentionsBattery(text) && Recent(k, text, now, WARNING_TIMEOUT))
  }

  lemma WarningIsEvidence(log: Log, text: string, now: Time)
    ensures WarningEvidence(log, text, now) <==> BlocksArming(Learned(log), text, now)
  {
    LearnedIsLatest(log, Warning(text));
  }

  lemma UnblockedMeansNoWarning(k: Knowledge, now: Time)
    ensures (forall t :: !BlocksArming(k, t, now)) <==>
      !BatteryWarned(k, now) && RecentWarnings(k, now, BLOCKING_WARNING_TIMEOUT) == {}
  {
    forall t ensures BlocksArming(k, t, now) <==>
      t in RecentWarnings(k, now, BLOCKING_WARNING_TIMEOUT) ||
      (t in RecentWarnings(k, now, WARNING_TIMEOUT) && MentionsBattery(t)) {
    }
  }
}
