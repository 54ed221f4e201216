/**
 Which messages count, and as what, in a message's own fields: nothing the identified vehicle's autopilot sends
 on a live link is left out, and every measurement is converted as it should be.
 */
module MessageMeaning {
  import opened Basics
  import opened MavlinkDecoder
  import opened VehicleLog

  // ----- which messages count

  /** A heartbeat no more than 3 s old by the sender of `m`. */
  ghost predicate HeardFrom(log: Log, m: Message, now: Time, h: int) {
    IsLastHeartbeat(log, h) && now - log[h].at <= 3 * SECOND &&
    log[h].event.system == m.system && log[h].event.component == m.component
  }

  /**
   A heartbeat counts if it is an autopilot's (component 1, autopilot type not 8) and no other vehicle is
   being heard; anything else counts if its sender's heartbeat was the last one and is no more than 3 s old.
   */
  ghost predicate Counts(log: Log, m: Message, now: Time) {
    if m.body.HeartbeatBody?
    then m.body.autopilot != 8 && m.component == 1 &&
         (LinkAlive(log, now) ==> exists h :: HeardFrom(log, m, now, h))
    else exists h :: HeardFrom(log, m, now, h)
  }

  lemma AdmittedIffCounts(log: Log, m: Message, now: Time)
    ensures Admits(LastHeartbeat(log), m, now) <==> Counts(log, m, now)
  {
    HeartbeatIsLast(log);
    if LastHeartbeat(log).Some? {
      var h :| IsLastHeartbeat(log, h);
      assert HeardFrom(log, m, now, h) <==> Linked(LastHeartbeat(log), now) && FromVehicle(LastHeartbeat(log), m);
    }
  }

  /** The log after a message of a run is exactly the entries of the messages that count: none is lost. */
  lemma {:induction false} OriginsAreWhatCounts(trace: seq<Received>, i: nat)
    requires i < |trace|
    ensures i in Origins(trace) <==>
      Counts(Ingested(trace[..i]), trace[i].message, trace[i].at) && EventOf(trace[i].message).Some?
    decreases |trace|
  {
    var last := |trace| - 1;
    var before := trace[..last];
    OriginsExplainLog(before);
    if i < last {
      OriginsAreWhatCounts(before, i);
      assert before[..i] == trace[..i] && before[i] == trace[i];
    } else {
      AdmittedIffCounts(Ingested(before), trace[last].message, trace[last].at);
      assert last !in Origins(before);
    }
  }

  /** ACKs and parameter values that count are passed on as they came, and nothing else is. */
  lemma CallbackIsWhatCounts(log: Log, m: Message, now: Time)
    ensures var callback := CallbackOf(log, m, now);
      (callback.AckCallback? <==> m.body.CommandAckBody? && Counts(log, m, now)) &&
      (callback.ParameterCallback? <==> m.body.ParamValue? && Counts(log, m, now)) &&
      (callback.AckCallback? ==>
         callback.ack.sourceSystem == m.system && callback.ack.sourceComponent == m.component &&
         callback.ack.command == m.body.command && callback.ack.result == m.body.result &&
         callback.ack.targetSystem == m.body.targetSystem &&
         callback.ack.targetComponent == m.body.targetComponent) &&
      (callback.ParameterCallback? ==>
         callback.sourceSystem == m.system && callback.sourceComponent == m.component &&
         callback.id == UntilNul(m.body.rawId) && callback.value == m.body.value)
  {
    AdmittedIffCounts(log, m, now);
  }

  // ----- as what they count

  /** Every kind of message but an ACK and those never decoded has an entry; two only on a condition. */
  lemma MessagesWithEntries(m: Message)
    ensures EventOf(m).None? <==>
      m.body.CommandAckBody? || m.body.OtherBody? ||
      (m.body.AutopilotVersionBody? && m.component != 1) ||
      (m.body.ParamValue? && UntilNul(m.body.rawId) != "BATT_ARM_VOLT")
  {
  }

  /** Positions, angles and the fix are taken over field by field. */
  lemma MotionIsTakenOver(m: Message)
    ensures m.body.GpsRawInt? ==> EventOf(m) == Some(Gps(m.body.fix, m.body.satellites))
    ensures m.body.GlobalPositionInt? ==> EventOf(m) == Some(GlobalPosition(m.body.relativeAltitudeMm))
    ensures m.body.LocalPositionNed? ==> EventOf(m) == Some(LocalPosition(m.body.north, m.body.east, m.body.down))
    ensures m.body.AttitudeBody? ==>
      EventOf(m) == Some(Attitude(m.body.roll, m.body.pitch, m.body.yaw, m.body.yawRate))
    ensures m.body.ParamValue? && EventOf(m).Some? ==> EventOf(m).value == ArmingVoltage(m.body.value)
    ensures m.body.StatusTextBody? ==> EventOf(m) == Some(StatusText(m.body.severity, UntilNul(m.body.rawText)))
    ensures m.body.HeartbeatBody? ==>
      EventOf(m) == Some(Heartbeat(m.system, m.component, m.body.vehicleType, m.body.autopilot, m.body.baseMode,
                                   m.body.customMode, m.body.status))
  {
  }

  /** The millivolts of the cells that report some: neither 0 nor the unknown value 65535. */
  function Millivolts(cells: seq<nat>): nat {
    if cells == [] then 0
    else (if cells[0] == 0 || cells[0] == 65535 then 0 else cells[0]) + Millivolts(cells[1..])
  }

  lemma {:induction false} MillivoltsOneMore(cells: seq<nat>, cell: nat)
    ensures Millivolts(cells + [cell]) == Millivolts(cells) + if cell == 0 || cell == 65535 then 0 else cell
    decreases |cells|
  {
    if cells == [] {
      assert cells + [cell] == [cell];
    } else {
      MillivoltsOneMore(cells[1..], cell);
      assert (cells + [cell])[1..] == cells[1..] + [cell];
    }
  }

  lemma {:induction false} PackIsMillivolts(cells: seq<nat>)
    ensures 1000.0 * PackVolts(cells) == Millivolts(cells) as real
    ensures Millivolts(cells) > 0 <==> exists i :: 0 <= i < |cells| && KnownCell(cells[i])
    decreases |cells|
  {
    if cells != [] {
      var front, last := cells[..|cells| - 1], cells[|cells| - 1];
      PackIsMillivolts(front);
      MillivoltsOneMore(front, last);
      assert cells == front + [last];
      if KnownCell(last) {
        assert KnownCell(cells[|cells| - 1]);
      }
      assert forall i :: 0 <= i < |front| ==> front[i] == cells[i];
    }
  }

  /** The readings that both battery messages carry: volts, amperes and percent, each only if it is known. */
  ghost predicate Measures(e: Event, millivolts: nat, centiamperes: int, percent: int)
    requires e.Battery? || e.SystemStatus?
  {
    (if millivolts == 0 then e.voltage == None
     else e.voltage.Some? && e.voltage.value.Finite? && 1000.0 * e.voltage.value.r == millivolts as real) &&
    (if centiamperes < 0 then e.current == None
     else e.current.Some? && e.current.value.Finite? && 100.0 * e.current.value.r == centiamperes as real) &&
    e.remaining == if percent < 0 then None else Some(percent)
  }

  /** A battery report: the voltage is that of all known cells of both lists together. */
  lemma BatteryIsMeasured(m: Message)
    requires m.body.BatteryStatus?
    ensures EventOf(m).Some? && EventOf(m).value.Battery? &&
      Measures(EventOf(m).value, Millivolts(m.body.cells + m.body.extraCells), m.body.centiamperes, m.body.percent)
  {
    PackIsMillivolts(m.body.cells + m.body.extraCells);
  }

  /** A system status: the same for its one voltage, next to the sensor masks. */
  lemma StatusIsMeasured(m: Message)
    requires m.body.SysStatus?
    ensures EventOf(m).Some? && EventOf(m).value.SystemStatus? &&
      EventOf(m).value.enabled == m.body.enabled && EventOf(m).value.healthy == m.body.healthy &&
      Measures(EventOf(m).value, Millivolts([m.body.millivolts]), m.body.centiamperes, m.body.percent)
  {
    MillivoltsOneMore([], m.body.millivolts);
    assert [] + [m.body.millivolts] == [m.body.millivolts];
  }

  /** The four bytes of a packed version, most significant first, and the identifiers as they are. */
  lemma VersionIsUnpacked(m: Message)
    requires m.body.AutopilotVersionBody? && m.component == 1 && m.body.packed < 0x1_0000_0000
    ensures EventOf(m).Some? && EventOf(m).value.AutopilotVersion? &&
      var v := EventOf(m).value.metadata;
      v.major < 0x100 && v.minor < 0x100 && v.patch < 0x100 && v.release < 0x100 &&
      m.body.packed == ((v.major * 0x100 + v.minor) * 0x100 + v.patch) * 0x100 + v.release &&
      v.capabilities == m.body.capabilities && v.board == m.body.board && v.vendor == m.body.vendor &&
      v.product == m.body.product
  {
    var p := m.body.packed;
    assert p / 0x1_0000 == p / 0x100 / 0x100;
    assert p / 0x100_0000 == p / 0x1_0000 / 0x100;
  }
}
