/**
 Does ArduPilot fail safe when the companion falls silent? Four parameters of the connected vehicle
 are collected in any order, and the verdict is re-computed after each.
 */
module CompanionLinkFailsafe {
  import opened Basics

  const AUTOPILOT_COMPONENT := 1
  const MINIMUM_TIMEOUT := 2.0
  const MAXIMUM_TIMEOUT := 10.0
  const MAXIMUM_BYTE := 255
  const MAXIMUM_WORD := 0xFFFF_FFFF
  const LAND := 5
  const LAST_ACTION := 7
  const PARAMETERS_REQUIRED := 4

  const ACTION_NAME := "FS_GCS_ENABLE"
  const TIMEOUT_NAME := "FS_GCS_TIMEOUT"
  const OPTIONS_NAME := "FS_OPTIONS"
  const GCS_ID_NAME := "SYSID_MYGCS"

  const PARAMETER_NAMES := [ACTION_NAME, TIMEOUT_NAME, OPTIONS_NAME, GCS_ID_NAME]

  datatype Phase = WaitingForVehicle | ReadingParameters | Accepted | Rejected

  /** The explanation shown to the operator. */
  datatype Detail =
    | AwaitingHeartbeat
    | StartingToRead
    | Reading(received: nat)
    | ActionUnsupported
    | ActionNotLand
    | TimeoutOutOfRange
    | OptionsInvalid
    | OptionsBypassFailsafe
    | GcsIdInvalid
    | GcsIdMismatch(heartbeatId: Option<nat>)
    | WillLandAfter(timeout: Float)

  datatype FailsafeSnapshot = FailsafeSnapshot(
    phase: Phase,
    detail: Detail,
    heartbeatId: Option<nat>,
    gcsId: Option<nat>,
    action: Option<nat>,
    timeout: Option<Float>,
    options: Option<nat>,
    received: nat)

  /** The raw parameter values, each present once it has been received. */
  datatype Raw = Raw(action: Option<Float>, timeout: Option<Float>, options: Option<Float>, gcsId: Option<Float>)

  datatype Failsafe = Failsafe(shown: FailsafeSnapshot, raw: Raw)

  const NO_VALUES := Raw(None, None, None, None)
  const NOTHING_SHOWN := FailsafeSnapshot(WaitingForVehicle, AwaitingHeartbeat, None, None, None, None, None, 0)
  const INITIAL := Failsafe(NOTHING_SHOWN, NO_VALUES)

  // ----- the verdict

  /** The integer a parameter holds, unless it is fractional or outside 0..maximum. */
  function ExactInteger(value: Option<Float>, maximum: nat): (n: Option<nat>)
    ensures forall i: nat :: n == Some(i) <==> i <= maximum && value == Some(Finite(i as real))
  {
    if value.None? || !value.value.Finite? then None
    else
      var r := value.value.r;
      if r < 0.0 || r > maximum as real || r.Floor as real != r then None else Some(r.Floor)
  }

  function BitOf(mask: nat, divisor: nat): nat
    requires divisor > 0
  {
    mask / divisor % 2
  }

  /** Bits 1 and 4: continue in Auto, continue in pilot modes. */
  predicate Continues(options: nat) {
    BitOf(options, 2) != 0 || BitOf(options, 16) != 0
  }

  function CountOf<T>(o: Option<T>): nat {
    if o.Some? then 1 else 0
  }

  function Received(raw: Raw): (n: nat)
    ensures n == PARAMETERS_REQUIRED <==>
      raw.action.Some? && raw.timeout.Some? && raw.options.Some? && raw.gcsId.Some?
  {
    CountOf(raw.action) + CountOf(raw.timeout) + CountOf(raw.options) + CountOf(raw.gcsId)
  }

  predicate TimeoutAllowed(timeout: Option<Float>) {
    timeout.Some? && timeout.value.Finite? && MINIMUM_TIMEOUT <= timeout.value.r <= MAXIMUM_TIMEOUT
  }

  function SupportedAction(value: Option<Float>): Option<nat> {
    var n := ExactInteger(value, MAXIMUM_BYTE);
    if n.Some? && n.value <= LAST_ACTION then n else None
  }

  /** The first complaint, or the verdict that the vehicle will land. */
  function Verdict(raw: Raw, heartbeatId: Option<nat>): Detail {
    var action := SupportedAction(raw.action);
    var options := ExactInteger(raw.options, MAXIMUM_WORD);
    var gcsId := ExactInteger(raw.gcsId, MAXIMUM_BYTE);
    if action.None? then ActionUnsupported
    else if action.value != LAND then ActionNotLand
    else if !TimeoutAllowed(raw.timeout) then TimeoutOutOfRange
    else if options.None? then OptionsInvalid
    else if Continues(options.value) then OptionsBypassFailsafe
    else if gcsId.None? || gcsId.value == 0 then GcsIdInvalid
    else if gcsId != heartbeatId then GcsIdMismatch(heartbeatId)
    else WillLandAfter(raw.timeout.value)
  }

  function Judged(shown: FailsafeSnapshot, raw: Raw): FailsafeSnapshot {
    if Received(raw) < PARAMETERS_REQUIRED
    then shown.(received := Received(raw), phase := ReadingParameters, detail := Reading(Received(raw)))
    else
      var verdict := Verdict(raw, shown.heartbeatId);
      shown.(
        received := Received(raw),
        action := SupportedAction(raw.action),
        timeout := if raw.timeout.Some? && raw.timeout.value.Finite? then raw.timeout else None,
        options := ExactInteger(raw.options, MAXIMUM_WORD),
        gcsId := ExactInteger(raw.gcsId, MAXIMUM_BYTE),
        phase := if verdict.WillLandAfter? then Accepted else Rejected,
        detail := verdict)
  }

  // ----- steps

  function Cleared(systemId: Option<nat>): Failsafe {
    Failsafe(
      if systemId.None? then NOTHING_SHOWN
      else NOTHING_SHOWN.(heartbeatId := systemId, phase := ReadingParameters, detail := StartingToRead),
      NO_VALUES)
  }

  function Observed(f: Failsafe, connected: bool, systemId: Option<nat>): Failsafe {
    if !connected || systemId.None? then (if f.shown.heartbeatId.Some? then Cleared(None) else f)
    else if f.shown.heartbeatId != systemId then Cleared(systemId)
    else f
  }

  function Stored(raw: Raw, id: string, value: Float): Raw {
    if id == ACTION_NAME then raw.(action := Some(value))
    else if id == TIMEOUT_NAME then raw.(timeout := Some(value))
    else if id == OPTIONS_NAME then raw.(options := Some(value))
    else if id == GCS_ID_NAME then raw.(gcsId := Some(value))
    else raw
  }

  predicate Concerns(f: Failsafe, system: nat, component: nat, id: string) {
    f.shown.heartbeatId == Some(system) && component == AUTOPILOT_COMPONENT && id in PARAMETER_NAMES
  }

  function Informed(f: Failsafe, system: nat, component: nat, id: string, value: Float): Failsafe {
    if Concerns(f, system, component, id)
    then Failsafe(Judged(f.shown, Stored(f.raw, id, value)), Stored(f.raw, id, value))
    else f
  }

  // ----- runs

  datatype Input =
    | Observe(connected: bool, systemId: Option<nat>)
    | Parameter(system: nat, component: nat, id: string, value: Float)

  function Step(f: Failsafe, input: Input): Failsafe {
    match input
    case Observe(connected, systemId) => Observed(f, connected, systemId)
    case Parameter(system, component, id, value) => Informed(f, system, component, id, value)
  }

  function Run(inputs: seq<Input>): Failsafe {
    if inputs == [] then INITIAL else Step(Run(inputs[..|inputs| - 1]), inputs[|inputs| - 1])
  }

  /** The vehicle of the current session: that of the last observation, if it was connected. */
  function SessionVehicle(inputs: seq<Input>): Option<nat> {
    if inputs == [] then None
    else
      match inputs[|inputs| - 1]
      case Observe(connected, systemId) => if connected then systemId else None
      case Parameter(_, _, _, _) => SessionVehicle(inputs[..|inputs| - 1])
  }

  /** Where the current session begins: after the last observation of something else. */
  function SessionStart(inputs: seq<Input>): (start: nat)
    ensures start <= |inputs|
  {
    if inputs == [] then 0
    else if SessionVehicle(inputs) != SessionVehicle(inputs[..|inputs| - 1]) then |inputs|
    else SessionStart(inputs[..|inputs| - 1])
  }

  /** Input `i` is the last value the session's autopilot reported under `id`. */
  ghost predicate IsLastValue(inputs: seq<Input>, id: string, i: int) {
    SessionStart(inputs) <= i < |inputs| && Reports(inputs, id, i) &&
    forall j :: i < j < |inputs| ==> !Reports(inputs, id, j)
  }

  ghost predicate Reports(inputs: seq<Input>, id: string, i: int)
    requires 0 <= i < |inputs|
  {
    inputs[i].Parameter? && inputs[i].id == id &&
    Some(inputs[i].system) == SessionVehicle(inputs) && inputs[i].component == 1
  }

  function RawValue(raw: Raw, id: string): Option<Float> {
    if id == ACTION_NAME then raw.action
    else if id == TIMEOUT_NAME then raw.timeout
    else if id == OPTIONS_NAME then raw.options
    else if id == GCS_ID_NAME then raw.gcsId
    else None
  }

  /** Everything shown is a function of the vehicle and the raw values. */
  function Summary(vehicle: Option<nat>, raw: Raw): FailsafeSnapshot {
    if vehicle.None? || Received(raw) == 0 then Cleared(vehicle).shown
    else Judged(Cleared(vehicle).shown, raw)
  }

  predicate Sound(f: Failsafe) {
    f.shown == Summary(f.shown.heartbeatId, f.raw) && (f.shown.heartbeatId.None? ==> f.raw == NO_VALUES)
  }

  /** What is shown depends on the session's vehicle and the values held, not on how they came. */
  lemma {:induction false} RunShowsSummary(inputs: seq<Input>)
    ensures Sound(Run(inputs)) && Run(inputs).shown.heartbeatId == SessionVehicle(inputs)
  {
    if inputs != [] {
      RunShowsSummary(inputs[..|inputs| - 1]);
      StepKeepsSound(Run(inputs[..|inputs| - 1]), inputs[|inputs| - 1]);
    }
  }

  lemma StepKeepsSound(f: Failsafe, input: Input)
    requires Sound(f)
    ensures Sound(Step(f, input))
    ensures Step(f, input).shown.heartbeatId ==
      match input
      case Observe(connected, systemId) => if connected then systemId else None
      case Parameter(_, _, _, _) => f.shown.heartbeatId
  {
  }

  ghost predicate NoValue(inputs: seq<Input>, id: string) {
    forall j :: SessionStart(inputs) <= j < |inputs| ==> !Reports(inputs, id, j)
  }

  ghost predicate HeldFrom(inputs: seq<Input>, id: string, held: Option<Float>, i: int) {
    if held.None? then NoValue(inputs, id)
    else IsLastValue(inputs, id, i) && held == Some(inputs[i].value)
  }

  /**
   No evidence survives an observed disconnect or change of vehicle: each value held was the last
   one reported under its name by the session's autopilot.
   */
  lemma {:induction false} HeldValueIsLast(inputs: seq<Input>, id: string) returns (i: int)
    requires id in PARAMETER_NAMES
    ensures HeldFrom(inputs, id, RawValue(Run(inputs).raw, id), i)
  {
    i := |inputs| - 1;
    if inputs != [] {
      var last := i;
      var shorter := inputs[..last];
      RunShowsSummary(shorter);
      RunShowsSummary(inputs);
      if SessionVehicle(inputs) == SessionVehicle(shorter) && !Reports(inputs, id, last) {
        i := HeldValueIsLast(shorter, id);
        SameReports(inputs, id, last, i);
      }
    }
  }

  lemma SameReports(inputs: seq<Input>, id: string, last: int, i: int)
    requires last == |inputs| - 1 >= 0 && SessionVehicle(inputs) == SessionVehicle(inputs[..last])
    requires !Reports(inputs, id, last)
    ensures IsLastValue(inputs, id, i) <==> IsLastValue(inputs[..last], id, i)
    ensures NoValue(inputs, id) <==> NoValue(inputs[..last], id)
  {
    assert forall j :: 0 <= j < last ==> (Reports(inputs, id, j) <==> Reports(inputs[..last], id, j));
  }

  // ----- the main claims

  /** The companion-link requirement, as a condition on four parameter values. */
  ghost predicate Safe(vehicle: nat, action: Float, timeout: Float, options: Float, gcsId: Float) {
    action == Finite(5.0) &&
    timeout.Finite? && 2.0 <= timeout.r <= 10.0 &&
    (exists mask: nat :: IsNumber(options, mask) && FailsWithoutCompanion(mask)) &&
    0 < vehicle <= 255 && IsNumber(gcsId, vehicle)
  }

  predicate IsNumber(value: Float, n: nat) {
    value == Finite(n as real)
  }

  /** A 32-bit mask with bits 1 and 4 clear: the vehicle goes on neither in Auto nor in pilot modes. */
  predicate FailsWithoutCompanion(mask: nat) {
    mask < 0x1_0000_0000 && mask / 2 % 2 == 0 && mask / 16 % 2 == 0
  }

  lemma VerdictIsSafe(raw: Raw, vehicle: nat)
    requires Received(raw) == PARAMETERS_REQUIRED
    ensures Verdict(raw, Some(vehicle)).WillLandAfter? <==>
      Safe(vehicle, raw.action.value, raw.timeout.value, raw.options.value, raw.gcsId.value)
  {
    NumberIsExact(raw.options.value, MAXIMUM_WORD);
    NumberIsExact(raw.gcsId.value, MAXIMUM_BYTE);
  }

  lemma NumberIsExact(value: Float, maximum: nat)
    ensures forall n: nat :: IsNumber(value, n) && n <= maximum <==> ExactInteger(Some(value), maximum) == Some(n)
  {
  }

  /** The last value reported in the session under `id`, if any. */
  ghost predicate LastValueIs(inputs: seq<Input>, id: string, value: Float) {
    exists i :: IsLastValue(inputs, id, i) && inputs[i].value == value
  }

  lemma HeldIffLastValue(inputs: seq<Input>, id: string, value: Float)
    requires id in PARAMETER_NAMES
    ensures LastValueIs(inputs, id, value) <==> RawValue(Run(inputs).raw, id) == Some(value)
  {
    var p := HeldValueIsLast(inputs, id);
    if i :| IsLastValue(inputs, id, i) && inputs[i].value == value {
      assert i == p;
    }
  }

  /**
   The failsafe is accepted exactly when a vehicle is connected, all four parameters arrived in its
   session, and their last values are safe.
   */
  lemma AcceptedIffSafe(inputs: seq<Input>)
    ensures Run(inputs).shown.phase == Accepted <==>
      SessionVehicle(inputs).Some? &&
      exists a, t, o, g ::
        LastValueIs(inputs, ACTION_NAME, a) && LastValueIs(inputs, TIMEOUT_NAME, t) &&
        LastValueIs(inputs, OPTIONS_NAME, o) && LastValueIs(inputs, GCS_ID_NAME, g) &&
        Safe(SessionVehicle(inputs).value, a, t, o, g)
  {
    RunShowsSummary(inputs);
    var raw := Run(inputs).raw;
    forall id, v | id in PARAMETER_NAMES
      ensures LastValueIs(inputs, id, v) <==> RawValue(raw, id) == Some(v)
    {
      HeldIffLastValue(inputs, id, v);
    }
    if SessionVehicle(inputs).Some? && Received(raw) == PARAMETERS_REQUIRED {
      VerdictIsSafe(raw, SessionVehicle(inputs).value);
    }
  }

  // ----- everything else that is shown

  /** Values have arrived under all four names. */
  ghost predicate AllReported(inputs: seq<Input>) {
    forall id :: id in PARAMETER_NAMES ==> exists v :: LastValueIs(inputs, id, v)
  }

  lemma ReportedIsHeld(inputs: seq<Input>)
    ensures AllReported(inputs) <==> Received(Run(inputs).raw) == PARAMETERS_REQUIRED
  {
    var raw := Run(inputs).raw;
    forall id, v | id in PARAMETER_NAMES
      ensures LastValueIs(inputs, id, v) <==> RawValue(raw, id) == Some(v)
    {
      HeldIffLastValue(inputs, id, v);
    }
    forall id | id in PARAMETER_NAMES
      ensures (exists v :: LastValueIs(inputs, id, v)) <==> RawValue(raw, id).Some?
    {
      if RawValue(raw, id).Some? {
        assert LastValueIs(inputs, id, RawValue(raw, id).value);
      }
    }
    assert ACTION_NAME in PARAMETER_NAMES && TIMEOUT_NAME in PARAMETER_NAMES;
    assert OPTIONS_NAME in PARAMETER_NAMES && GCS_ID_NAME in PARAMETER_NAMES;
  }

  /** The phase: nobody to ask without a vehicle, reading until all four values are in, and then a verdict. */
  lemma PhaseIsProgress(inputs: seq<Input>)
    ensures var shown := Run(inputs).shown;
      (shown.phase == WaitingForVehicle <==> SessionVehicle(inputs).None?) &&
      (shown.phase == ReadingParameters <==> SessionVehicle(inputs).Some? && !AllReported(inputs)) &&
      shown.received == Received(Run(inputs).raw)
  {
    RunShowsSummary(inputs);
    ReportedIsHeld(inputs);
  }

  /** What a detail says of the values, the earlier complaints having been met. */
  ghost predicate DetailHolds(detail: Detail, vehicle: nat, action: Float, timeout: Float, options: Float,
                              gcsId: Float)
  {
    var landing := action == Finite(5.0);
    var timely := timeout.Finite? && 2.0 <= timeout.r <= 10.0;
    var masked := exists mask: nat :: IsNumber(options, mask) && mask < 0x1_0000_0000;
    var failing := exists mask: nat :: IsNumber(options, mask) && FailsWithoutCompanion(mask);
    var named := exists id: nat :: IsNumber(gcsId, id) && 0 < id <= 255;
    match detail
    case ActionUnsupported => forall n: nat :: IsNumber(action, n) ==> n > 7
    case ActionNotLand => !landing && exists n: nat :: IsNumber(action, n) && n <= 7
    case TimeoutOutOfRange => landing && !timely
    case OptionsInvalid => landing && timely && !masked
    case OptionsBypassFailsafe => landing && timely && masked && !failing
    case GcsIdInvalid => landing && timely && failing && !named
    case GcsIdMismatch(heartbeatId) =>
      landing && timely && failing && named && !IsNumber(gcsId, vehicle) && heartbeatId == Some(vehicle)
    case WillLandAfter(shown) => Safe(vehicle, action, timeout, options, gcsId) && shown == timeout
    case _ => false
  }

  /** The verdict is the first complaint that the values give rise to. */
  lemma VerdictTells(raw: Raw, vehicle: nat)
    requires Received(raw) == PARAMETERS_REQUIRED
    ensures DetailHolds(Verdict(raw, Some(vehicle)), vehicle, raw.action.value, raw.timeout.value, raw.options.value,
                        raw.gcsId.value)
  {
    VerdictIsSafe(raw, vehicle);
    NumberIsExact(raw.action.value, MAXIMUM_BYTE);
    NumberIsExact(raw.options.value, MAXIMUM_WORD);
    NumberIsExact(raw.gcsId.value, MAXIMUM_BYTE);
  }

  /** Once all four values are in, the detail shown holds of the last ones, and the values shown are theirs. */
  lemma VerdictIsShown(inputs: seq<Input>, action: Float, timeout: Float, options: Float, gcsId: Float)
    requires SessionVehicle(inputs).Some?
    requires LastValueIs(inputs, ACTION_NAME, action) && LastValueIs(inputs, TIMEOUT_NAME, timeout)
    requires LastValueIs(inputs, OPTIONS_NAME, options) && LastValueIs(inputs, GCS_ID_NAME, gcsId)
    ensures var shown := Run(inputs).shown;
      DetailHolds(shown.detail, SessionVehicle(inputs).value, action, timeout, options, gcsId) &&
      (forall n: nat :: shown.action == Some(n) <==> IsNumber(action, n) && n <= 7) &&
      (shown.timeout == if timeout.Finite? then Some(timeout) else None) &&
      (forall n: nat :: shown.options == Some(n) <==> IsNumber(options, n) && n < 0x1_0000_0000) &&
      (forall n: nat :: shown.gcsId == Some(n) <==> IsNumber(gcsId, n) && n <= 255)
  {
    RunShowsSummary(inputs);
    HeldIffLastValue(inputs, ACTION_NAME, action);
    HeldIffLastValue(inputs, TIMEOUT_NAME, timeout);
    HeldIffLastValue(inputs, OPTIONS_NAME, options);
    HeldIffLastValue(inputs, GCS_ID_NAME, gcsId);
    VerdictTells(Run(inputs).raw, SessionVehicle(inputs).value);
  }

  /** Two runs for the same vehicle with the same last values show the same, in whatever order they came. */
  lemma OrderDoesNotMatter(inputs: seq<Input>, others: seq<Input>)
    requires SessionVehicle(inputs) == SessionVehicle(others)
    requires forall id, v :: id in PARAMETER_NAMES ==> (LastValueIs(inputs, id, v) <==> LastValueIs(others, id, v))
    ensures Run(inputs) == Run(others)
  {
    RunShowsSummary(inputs);
    RunShowsSummary(others);
    forall id | id in PARAMETER_NAMES ensures RawValue(Run(inputs).raw, id) == RawValue(Run(others).raw, id) {
      SameHeld(inputs, others, id);
    }
    assert ACTION_NAME in PARAMETER_NAMES && TIMEOUT_NAME in PARAMETER_NAMES;
    assert OPTIONS_NAME in PARAMETER_NAMES && GCS_ID_NAME in PARAMETER_NAMES;
  }

  lemma SameHeld(inputs: seq<Input>, others: seq<Input>, id: string)
    requires id in PARAMETER_NAMES
    requires forall v :: LastValueIs(inputs, id, v) <==> LastValueIs(others, id, v)
    ensures RawValue(Run(inputs).raw, id) == RawValue(Run(others).raw, id)
  {
    var held, other := RawValue(Run(inputs).raw, id), RawValue(Run(others).raw, id);
    if held.Some? {
      HeldIffLastValue(inputs, id, held.value);
      HeldIffLastValue(others, id, held.value);
    }
    if other.Some? {
      HeldIffLastValue(inputs, id, other.value);
      HeldIffLastValue(others, id, other.value);
    }
  }

  // ----- the failsafe monitor

  class CompanionLinkFailsafe {
    var snapshot: FailsafeSnapshot
    var rawAction: Option<Float>
    var rawTimeout: Option<Float>
    var rawOptions: Option<Float>
    var rawGcsSystemId: Option<Float>

    ghost function Model(): Failsafe
      reads this
    {
      Failsafe(snapshot, Raw(rawAction, rawTimeout, rawOptions, rawGcsSystemId))
    }

    constructor ()
      ensures Model() == INITIAL
    {
      snapshot := NOTHING_SHOWN;
      rawAction, rawTimeout, rawOptions, rawGcsSystemId := None, None, None, None;
    }

    method ObserveVehicle(connected: bool, systemId: Option<nat>)
      modifies this
      ensures Model() == Observed(old(Model()), connected, systemId)
    {
      if !connected || systemId.None? {
        if snapshot.heartbeatId.Some? {
          Reset(None);
        }
        return;
      }
      if snapshot.heartbeatId != systemId {
        Reset(systemId);
      }
    }

    method OnParameter(sourceSystem: nat, sourceComponent: nat, id: string, value: Float)
      modifies this
      ensures Model() == Informed(old(Model()), sourceSystem, sourceComponent, id, value)
    {
      if snapshot.heartbeatId.None? || sourceSystem != snapshot.heartbeatId.value ||
         sourceComponent != AUTOPILOT_COMPONENT {
        return;
      }
      if id == ACTION_NAME {
        rawAction := Some(value);
      } else if id == TIMEOUT_NAME {
        rawTimeout := Some(value);
      } else if id == OPTIONS_NAME {
        rawOptions := Some(value);
      } else if id == GCS_ID_NAME {
        rawGcsSystemId := Some(value);
      } else {
        return;
      }
      Validate();
    }

    method Reset(systemId: Option<nat>)
      modifies this
      ensures Model() == Cleared(systemId)
    {
      snapshot := NOTHING_SHOWN;
      snapshot := snapshot.(heartbeatId := systemId);
      if systemId.Some? {
        snapshot := snapshot.(phase := ReadingParameters);
        snapshot := snapshot.(detail := StartingToRead);
      }
      rawAction := None;
      rawTimeout := None;
      rawOptions := None;
      rawGcsSystemId := None;
    }

    method Validate()
      modifies this`snapshot
      ensures snapshot == Judged(old(snapshot), Model().raw)
    {
      var received := CountOf(rawAction) + CountOf(rawTimeout) + CountOf(rawOptions) + CountOf(rawGcsSystemId);
      assert received == Received(Model().raw);
      snapshot := snapshot.(received := received);
      if received < PARAMETERS_REQUIRED {
        snapshot := snapshot.(phase := ReadingParameters, detail := Reading(received));
        return;
      }
      var actionValue := ExactInteger(rawAction, MAXIMUM_BYTE);
      var optionsValue := ExactInteger(rawOptions, MAXIMUM_WORD);
      var gcsSystemId := ExactInteger(rawGcsSystemId, MAXIMUM_BYTE);
      snapshot := snapshot.(
        action := if actionValue.Some? && actionValue.value <= LAST_ACTION then actionValue else None,
        timeout := if rawTimeout.Some? && rawTimeout.value.Finite? then rawTimeout else None,
        options := optionsValue,
        gcsId := gcsSystemId,
        phase := Rejected);
      if snapshot.action.None? {
        snapshot := snapshot.(detail := ActionUnsupported);
        return;
      }
      if snapshot.action.value != LAND {
        snapshot := snapshot.(detail := ActionNotLand);
        return;
      }
      if rawTimeout.None? || !rawTimeout.value.Finite? ||
         rawTimeout.value.r < MINIMUM_TIMEOUT || rawTimeout.value.r > MAXIMUM_TIMEOUT {
        snapshot := snapshot.(detail := TimeoutOutOfRange);
        return;
      }
      if optionsValue.None? {
        snapshot := snapshot.(detail := OptionsInvalid);
        return;
      }
      if Continues(optionsValue.value) {
        snapshot := snapshot.(detail := OptionsBypassFailsafe);
        return;
      }
      if gcsSystemId.None? || gcsSystemId.value == 0 {
        snapshot := snapshot.(detail := GcsIdInvalid);
        return;
      }
      if snapshot.heartbeatId.None? || gcsSystemId.value != snapshot.heartbeatId.value {
        snapshot := snapshot.(detail := GcsIdMismatch(snapshot.heartbeatId));
        return;
      }
      snapshot := snapshot.(phase := Accepted, detail := WillLandAfter(rawTimeout.value));
    }
  }
}
