/** What every run of the companion session protocol keeps: one vehicle a session, one order on the wire. */
module SessionProtocol {
  import opened Basics
  import opened CompanionModel
  import L = VehicleLog
  import D = MavlinkDecoder
  import T = TelemetryStreamConfigurator
  import F = CompanionLinkFailsafe

  // ----- all components serve the vehicle of the polled snapshot

  predicate Agrees(a: App, v: Vehicle) {
    a.setup.vehicle == a.failsafe.shown.heartbeatId == Served(v)
  }

  /** `b` continues `a` by handing over frames addressed to `v` only, and none at all without a link. */
  ghost predicate Continues(a: App, b: App, v: Vehicle) {
    a.attempts <= b.attempts &&
    (forall i :: |a.attempts| <= i < |b.attempts| ==> Some(TargetOf(b.attempts[i].request)) == Served(v)) &&
    (Served(v).None? ==> b.link == a.link)
  }

  /** Between the steps of a poll that serves `v`. */
  predicate Serving(a: App, v: Vehicle) {
    T.Coherent(a.setup) && a.failsafe.shown.heartbeatId == Served(v) && (v.connected ==> v.systemId.Some?)
  }

  lemma HeartbeatContinues(encode: Encoder, a: App, v: Vehicle, now: Time)
    requires Serving(a, v)
    ensures Continues(a, HeartbeatSent(encode, a, v, now), v)
    ensures Serving(HeartbeatSent(encode, a, v, now), v)
  {
  }

  lemma SetupContinues(encode: Encoder, a: App, v: Vehicle, now: Time)
    requires Serving(a, v)
    ensures var b := SetupUpdated(encode, a, v, now); Continues(a, b, v) && Serving(b, v) && Agrees(b, v)
  {
    UpdateStaysCoherent(a.setup, v.connected, v.systemId, now);
  }

  lemma UpdateStaysCoherent(s: T.Setup, connected: bool, vehicle: Option<nat>, now: Time)
    requires T.Coherent(s)
    ensures var (next, request) := T.Updated(s, connected, vehicle, now);
      T.Coherent(next) && next.vehicle == (if connected then vehicle else None) &&
      (request.Some? ==> Some(request.value.system) == next.vehicle)
  {
  }

  lemma FailsafeContinues(encode: Encoder, a: App, v: Vehicle, now: Time)
    requires Serving(a, v) && Agrees(a, v)
    ensures var b := FailsafeRequested(encode, a, v, now); Continues(a, b, v) && Serving(b, v) && Agrees(b, v)
  {
  }

  lemma MetadataContinues(encode: Encoder, a: App, v: Vehicle, now: Time)
    requires Serving(a, v) && Agrees(a, v)
    ensures var b := ThresholdAsked(encode, VersionAsked(encode, a, v, now), v, now);
      Continues(a, b, v) && Serving(b, v) && Agrees(b, v)
  {
    var b := VersionAsked(encode, a, v, now);
    assert Continues(a, b, v) && Serving(b, v) && Agrees(b, v);
    assert Continues(b, ThresholdAsked(encode, b, v, now), v);
  }

  lemma ContinuesOn(a: App, b: App, c: App, v: Vehicle)
    requires Continues(a, b, v) && Continues(b, c, v)
    ensures Continues(a, c, v)
  {
  }

  lemma DrivenServesOne(encode: Encoder, a: App, v: Vehicle, now: Time)
    requires T.Coherent(a.setup) && (v.connected ==> v.systemId.Some?)
    ensures var b := Driven(encode, a, v, now);
      Continues(SessionEntered(a, v), b, v) && Agrees(b, v)
  {
    var entered := SessionEntered(a, v);
    var connected := ConnectionUpdated(entered, v, now);
    var beaten := HeartbeatSent(encode, connected, v, now);
    var ready := SetupUpdated(encode, beaten, v, now);
    var failsafe := FailsafeRequested(encode, ready, v, now);
    HeartbeatContinues(encode, connected, v, now);
    SetupContinues(encode, beaten, v, now);
    FailsafeContinues(encode, ready, v, now);
    MetadataContinues(encode, failsafe, v, now);
    ContinuesOn(entered, beaten, ready, v);
    ContinuesOn(entered, ready, failsafe, v);
    ContinuesOn(entered, failsafe, Driven(encode, a, v, now), v);
  }

  lemma LinkedVehicleIsNamed(log: L.Log, now: Time)
    ensures VehicleAt(log, now).connected ==> VehicleAt(log, now).systemId.Some?
  {
  }

  /**
   One poll, from any coherent state: afterwards the stream set-up and the failsafe monitor serve
   exactly the vehicle of the polled snapshot (none without a link), every frame handed over is
   addressed to it, and without a link the wire is untouched.
   */
  lemma PollServesOneVehicle(encode: Encoder, a: App, input: PollInput)
    requires T.Coherent(a.setup)
    ensures var ingested := Ingested(a, input.messages, input.now);
            var v := VehicleAt(ingested.log, input.now);
            var b := Polled(encode, a, input);
      Agrees(b, v) && Continues(SessionEntered(ingested, v), b, v)
  {
    IngestStaysCoherent(a, input.messages, input.now);
    var ingested := Ingested(a, input.messages, input.now);
    var v := VehicleAt(ingested.log, input.now);
    LinkedVehicleIsNamed(ingested.log, input.now);
    assert Agrees(Driven(encode, ingested, v, input.now), v) by {
      DrivenServesOne(encode, ingested, v, input.now);
    }
    assert Continues(SessionEntered(ingested, v), Driven(encode, ingested, v, input.now), v) by {
      DrivenServesOne(encode, ingested, v, input.now);
    }
  }

  lemma {:induction false} IngestStaysCoherent(a: App, messages: seq<D.Message>, now: Time)
    requires T.Coherent(a.setup)
    ensures T.Coherent(Ingested(a, messages, now).setup)
  {
    if messages != [] {
      IngestStaysCoherent(a, messages[..|messages| - 1], now);
    }
  }

  // ----- order on the wire

  /** The stream commands among the frames of a session. */
  function Intervals(attempts: seq<Attempt>): seq<T.IntervalRequest> {
    if attempts == [] then []
    else
      var last := attempts[|attempts| - 1];
      Intervals(attempts[..|attempts| - 1]) + if last.request.SetInterval? then [last.request.interval] else []
  }

  /** The failsafe parameter reads among the frames of a session. */
  function FailsafeReads(attempts: seq<Attempt>): (asked: seq<Attempt>)
    ensures forall i :: 0 <= i < |asked| ==> asked[i].request.ReadFailsafe?
  {
    if attempts == [] then []
    else
      var last := attempts[|attempts| - 1];
      FailsafeReads(attempts[..|attempts| - 1]) + if last.request.ReadFailsafe? then [last] else []
  }

  function Heartbeats(attempts: seq<Attempt>): seq<Attempt> {
    if attempts == [] then []
    else
      var last := attempts[|attempts| - 1];
      Heartbeats(attempts[..|attempts| - 1]) + if last.request.CompanionHeartbeat? then [last] else []
  }

  lemma AppendAttempt(attempts: seq<Attempt>, x: Attempt)
    ensures Intervals(attempts + [x]) ==
      Intervals(attempts) + if x.request.SetInterval? then [x.request.interval] else []
    ensures FailsafeReads(attempts + [x]) == FailsafeReads(attempts) + if x.request.ReadFailsafe? then [x] else []
    ensures Heartbeats(attempts + [x]) == Heartbeats(attempts) + if x.request.CompanionHeartbeat? then [x] else []
  {
    assert (attempts + [x])[..|attempts|] == attempts;
  }

  predicate IsRead(r: Request) {
    r.RequestVersion? || r.ReadThreshold? || r.ReadFailsafe?
  }

  /** No stream command follows a version or parameter read. */
  ghost predicate ReadsComeLast(attempts: seq<Attempt>) {
    forall i, j :: 0 <= i < j < |attempts| && IsRead(attempts[i].request) ==> !attempts[j].request.SetInterval?
  }

  ghost predicate HasRead(attempts: seq<Attempt>) {
    exists i :: 0 <= i < |attempts| && IsRead(attempts[i].request)
  }

  /** The pause owed after a failsafe read: long after the last name of a cycle, longer once accepted. */
  function PauseAfter(read: Attempt): Time
    requires read.request.ReadFailsafe?
  {
    if read.request.name != F.GCS_ID_NAME then 200 * MILLISECOND
    else if read.accepted then 10 * SECOND else 2 * SECOND
  }

  /** The reads cycle through the four names, each after the pause its predecessor owes. */
  predicate Cycles(asked: seq<Attempt>)
    requires forall i :: 0 <= i < |asked| ==> asked[i].request.ReadFailsafe?
  {
    forall i :: 0 < i < |asked| ==>
      asked[i].at >= asked[i - 1].at + PauseAfter(asked[i - 1]) &&
      NameFollows(asked[i - 1].request.name, asked[i].request.name)
  }

  predicate NameFollows(previous: string, next: string) {
    (previous == F.ACTION_NAME && next == F.TIMEOUT_NAME) ||
    (previous == F.TIMEOUT_NAME && next == F.OPTIONS_NAME) ||
    (previous == F.OPTIONS_NAME && next == F.GCS_ID_NAME) ||
    (previous == F.GCS_ID_NAME && next == F.ACTION_NAME)
  }

  predicate TimerMatches(asked: seq<Attempt>, timers: Timers)
    requires forall i :: 0 <= i < |asked| ==> asked[i].request.ReadFailsafe?
  {
    timers.index < |F.PARAMETER_NAMES| &&
    (asked != [] ==>
      var last := asked[|asked| - 1];
      NameFollows(last.request.name, F.PARAMETER_NAMES[timers.index]) && timers.failsafe == last.at + PauseAfter(last))
  }

  predicate Cadenced(beats: seq<Attempt>, next: Time) {
    (forall i :: 0 < i < |beats| ==> beats[i].at >= beats[i - 1].at + HEARTBEAT_INTERVAL) &&
    (beats != [] ==> next >= beats[|beats| - 1].at + HEARTBEAT_INTERVAL)
  }

  /** What was sent so far is in order. */
  ghost predicate WireOrdered(setup: T.Setup, attempts: seq<Attempt>) {
    T.OnTrack(T.Trail(setup, Intervals(attempts), setup.completed)) &&
    ReadsComeLast(attempts) && (HasRead(attempts) ==> setup.phase == T.Active) &&
    Cycles(FailsafeReads(attempts))
  }

  /** So is what was sent, and the timers will keep it so. */
  ghost predicate Ordered(setup: T.Setup, attempts: seq<Attempt>, timers: Timers) {
    WireOrdered(setup, attempts) && TimerMatches(FailsafeReads(attempts), timers) &&
    Cadenced(Heartbeats(attempts), timers.heartbeat)
  }

  /** Between polls; during a poll the set-up may still have to enter the session of `v`. */
  ghost predicate SessionSound(a: App) {
    Ordered(a.setup, a.attempts, a.timers) &&
    a.failsafe.shown.heartbeatId == a.setup.vehicle && (a.seen.connected <==> a.setup.vehicle.Some?)
  }

  ghost predicate PollSound(a: App, v: Vehicle) {
    Serving(a, v) && a.seen.connected == v.connected &&
    Ordered(T.Entered(a.setup, v.connected, v.systemId), a.attempts, a.timers)
  }

  lemma {:induction false} IngestStaysSound(a: App, messages: seq<D.Message>, now: Time)
    requires SessionSound(a)
    ensures SessionSound(Ingested(a, messages, now))
  {
    if messages != [] {
      var last := |messages| - 1;
      IngestStaysSound(a, messages[..last], now);
      MessageStaysSound(Ingested(a, messages[..last], now), messages[last], now);
    }
  }

  lemma MessageStaysSound(a: App, m: D.Message, now: Time)
    requires SessionSound(a)
    ensures SessionSound(MessageHandled(a, m, now))
  {
    match D.CallbackOf(a.log, m, now)
    case AckCallback(ack) =>
      T.StepKeepsTrack(T.Trail(a.setup, Intervals(a.attempts), a.setup.completed), T.Ack(ack, now));
    case _ =>
  }

  /** Entering a session: the failsafe monitor follows, and a new session starts with nothing sent. */
  ghost predicate EntryStep(a: App, b: App, v: Vehicle, now: Time) {
    b.setup == a.setup &&
    b.failsafe.shown.heartbeatId == Served(v) && b.seen.connected == v.connected &&
    b.attempts == (if Served(v) == a.setup.vehicle then a.attempts else []) &&
    b.timers == if v.connected && !a.seen.connected then a.timers.(index := 0, failsafe := now) else a.timers
  }

  lemma EntryDoes(a: App, v: Vehicle, now: Time)
    requires v.connected ==> v.systemId.Some?
    ensures EntryStep(a, ConnectionUpdated(SessionEntered(a, v), v, now), v, now)
  {
  }

  lemma EntryIsSound(a: App, b: App, v: Vehicle, now: Time)
    requires SessionSound(a) && (v.connected ==> v.systemId.Some?) && EntryStep(a, b, v, now)
    ensures PollSound(b, v)
  {
    var entered := T.Entered(a.setup, v.connected, v.systemId);
    if Served(v) == a.setup.vehicle {
      assert entered == a.setup && b.timers == a.timers && b.attempts == a.attempts;
    } else {
      NothingSentIsOrdered(entered, b.timers);
    }
  }

  lemma NothingSentIsOrdered(setup: T.Setup, timers: Timers)
    requires setup == T.IDLE || (setup.vehicle.Some? && setup == T.Begun(setup.vehicle.value))
    requires timers.index < |F.PARAMETER_NAMES|
    ensures Ordered(setup, [], timers)
  {
  }

  lemma AppendHeartbeat(setup: T.Setup, attempts: seq<Attempt>, timers: Timers, x: Attempt)
    requires Ordered(setup, attempts, timers)
    requires x.request.CompanionHeartbeat? && x.at >= timers.heartbeat
    ensures Ordered(setup, attempts + [x], timers.(heartbeat := x.at + HEARTBEAT_INTERVAL))
  {
    AppendedHeartbeat(attempts, x);
    AppendKeepsReadOrder(attempts, x);
    AppendKeepsCadence(Heartbeats(attempts), timers.heartbeat, x);
  }

  lemma AppendedHeartbeat(attempts: seq<Attempt>, x: Attempt)
    requires x.request.CompanionHeartbeat?
    ensures Intervals(attempts + [x]) == Intervals(attempts) && FailsafeReads(attempts + [x]) == FailsafeReads(attempts)
    ensures Heartbeats(attempts + [x]) == Heartbeats(attempts) + [x]
  {
    AppendAttempt(attempts, x);
  }

  lemma AppendKeepsCadence(beats: seq<Attempt>, due: Time, x: Attempt)
    requires Cadenced(beats, due) && x.at >= due
    ensures Cadenced(beats + [x], x.at + HEARTBEAT_INTERVAL)
  {
  }

  lemma AppendKeepsReadOrder(attempts: seq<Attempt>, x: Attempt)
    requires ReadsComeLast(attempts) && (x.request.SetInterval? ==> !HasRead(attempts))
    ensures ReadsComeLast(attempts + [x])
    ensures HasRead(attempts + [x]) <==> HasRead(attempts) || IsRead(x.request)
  {
    var more := attempts + [x];
    assert forall i :: 0 <= i < |attempts| ==> more[i] == attempts[i];
    assert more[|attempts|] == x;
    if IsRead(x.request) {
      assert IsRead(more[|attempts|].request);
    }
    if i :| 0 <= i < |attempts| && IsRead(attempts[i].request) {
      assert IsRead(more[i].request);
    }
  }

  lemma AppendRead(setup: T.Setup, attempts: seq<Attempt>, timers: Timers, x: Attempt)
    requires Ordered(setup, attempts, timers) && setup.phase == T.Active
    requires x.request.RequestVersion? || x.request.ReadThreshold?
    ensures Ordered(setup, attempts + [x], timers)
  {
    AppendedRead(attempts, x);
    AppendKeepsReadOrder(attempts, x);
  }

  lemma AppendFailsafeRead(setup: T.Setup, attempts: seq<Attempt>, timers: Timers, x: Attempt)
    requires Ordered(setup, attempts, timers) && setup.phase == T.Active
    requires x.request.ReadFailsafe? && x.request.name == F.PARAMETER_NAMES[timers.index] && x.at >= timers.failsafe
    ensures Ordered(setup, attempts + [x], timers.(
      index := if timers.index + 1 < |F.PARAMETER_NAMES| then timers.index + 1 else 0,
      failsafe := NextFailsafeDue(timers.index, x.accepted, x.at)))
  {
    AppendedRead(attempts, x);
    AppendKeepsReadOrder(attempts, x);
    AppendToCycle(FailsafeReads(attempts), timers, x);
  }

  lemma AppendedRead(attempts: seq<Attempt>, x: Attempt)
    requires IsRead(x.request)
    ensures Intervals(attempts + [x]) == Intervals(attempts) && Heartbeats(attempts + [x]) == Heartbeats(attempts)
    ensures FailsafeReads(attempts + [x]) == if x.request.ReadFailsafe?
      then FailsafeReads(attempts) + [x] else FailsafeReads(attempts)
  {
    AppendAttempt(attempts, x);
  }

  lemma AppendToCycle(asked: seq<Attempt>, timers: Timers, x: Attempt)
    requires forall i :: 0 <= i < |asked| ==> asked[i].request.ReadFailsafe?
    requires Cycles(asked) && TimerMatches(asked, timers)
    requires x.request.ReadFailsafe? && x.request.name == F.PARAMETER_NAMES[timers.index] && x.at >= timers.failsafe
    ensures Cycles(asked + [x]) && TimerMatches(asked + [x], timers.(
      index := if timers.index + 1 < |F.PARAMETER_NAMES| then timers.index + 1 else 0,
      failsafe := NextFailsafeDue(timers.index, x.accepted, x.at)))
  {
  }

  lemma PostponeHeartbeat(setup: T.Setup, attempts: seq<Attempt>, timers: Timers, next: Time)
    requires Ordered(setup, attempts, timers) && next >= timers.heartbeat
    ensures Ordered(setup, attempts, timers.(heartbeat := next))
  {
    PostponedStaysCadenced(Heartbeats(attempts), timers.heartbeat, next);
  }

  lemma PostponedStaysCadenced(beats: seq<Attempt>, due: Time, next: Time)
    requires Cadenced(beats, due) && next >= due
    ensures Cadenced(beats, next)
  {
  }

  /** `b` differs from `a` in timers and observers only. */
  ghost predicate SameSession(a: App, b: App) {
    b.failsafe == a.failsafe && b.seen.connected == a.seen.connected
  }

  /** `b` follows from `a` by handing one frame over. */
  ghost predicate Sends(a: App, b: App, request: Request, now: Time) {
    SameSession(a, b) && |b.attempts| == |a.attempts| + 1 &&
    var x := b.attempts[|a.attempts|];
    b.attempts == a.attempts + [x] &&
    x.request == request && x.at == now && x.accepted == (a.failsafe.shown.phase == F.Accepted)
  }

  ghost predicate HeartbeatStep(a: App, b: App, v: Vehicle, now: Time) {
    b.setup == a.setup &&
    if now < a.timers.heartbeat then b == a
    else
      b.timers == a.timers.(heartbeat := now + HEARTBEAT_INTERVAL) &&
      if v.connected && v.systemId.Some? then Sends(a, b, CompanionHeartbeat(v.systemId.value), now)
      else SameSession(a, b) && b.attempts == a.attempts
  }

  lemma HeartbeatDoes(encode: Encoder, a: App, v: Vehicle, now: Time)
    ensures HeartbeatStep(a, HeartbeatSent(encode, a, v, now), v, now)
  {
  }

  lemma HeartbeatIsSound(a: App, b: App, v: Vehicle, now: Time)
    requires PollSound(a, v) && HeartbeatStep(a, b, v, now)
    ensures PollSound(b, v)
  {
    var entered := T.Entered(a.setup, v.connected, v.systemId);
    if now >= a.timers.heartbeat {
      if v.connected {
        AppendHeartbeat(entered, a.attempts, a.timers, b.attempts[|a.attempts|]);
      } else {
        PostponeHeartbeat(entered, a.attempts, a.timers, now + HEARTBEAT_INTERVAL);
      }
    }
  }

  lemma UpdateOnTrack(s: T.Setup, sent: seq<T.IntervalRequest>, v: Vehicle, now: Time)
    requires var entered := T.Entered(s, v.connected, v.systemId); T.OnTrack(T.Trail(entered, sent, entered.completed))
    ensures var (next, request) := T.Updated(s, v.connected, v.systemId, now);
      T.OnTrack(T.Trail(next, sent + (if request.Some? then [request.value] else []), next.completed)) &&
      T.Entered(next, v.connected, v.systemId) == next &&
      (request.Some? ==> next.phase == T.Configuring) &&
      (T.Entered(s, v.connected, v.systemId).phase == T.Active ==> next.phase == T.Active)
  {
    var entered := T.Entered(s, v.connected, v.systemId);
    assert T.Entered(entered, v.connected, v.systemId) == entered;
    T.StepKeepsTrack(T.Trail(entered, sent, entered.completed), T.Update(v.connected, v.systemId, now));
  }

  ghost predicate SetupStep(a: App, b: App, v: Vehicle, now: Time) {
    var (next, request) := T.Updated(a.setup, v.connected, v.systemId, now);
    b.setup == next && b.timers == a.timers &&
    if request.Some? then Sends(a, b, SetInterval(request.value), now)
    else SameSession(a, b) && b.attempts == a.attempts
  }

  lemma SetupDoes(encode: Encoder, a: App, v: Vehicle, now: Time)
    ensures SetupStep(a, SetupUpdated(encode, a, v, now), v, now)
  {
  }

  lemma SetupIsSound(a: App, b: App, v: Vehicle, now: Time)
    requires PollSound(a, v) && SetupStep(a, b, v, now)
    ensures PollSound(b, v) && b.setup == T.Entered(b.setup, v.connected, v.systemId)
  {
    UpdateStaysCoherent(a.setup, v.connected, v.systemId, now);
    UpdateOnTrack(a.setup, Intervals(a.attempts), v, now);
    if b.attempts != a.attempts {
      AppendAttempt(a.attempts, b.attempts[|a.attempts|]);
      AppendKeepsReadOrder(a.attempts, b.attempts[|a.attempts|]);
    }
  }

  /** A read is handed over only while the set-up is active, or nothing happens. */
  ghost predicate RequestStep(a: App, b: App, v: Vehicle, now: Time) {
    b == a ||
    (b.setup == a.setup && a.setup.phase == T.Active && v.systemId.Some? &&
     b.timers.heartbeat == a.timers.heartbeat &&
     (Sends(a, b, RequestVersion(v.systemId.value), now) || Sends(a, b, ReadThreshold(v.systemId.value), now)) &&
     b.timers.index == a.timers.index && b.timers.failsafe == a.timers.failsafe)
  }

  /** Once the set-up is active, the next failsafe parameter is read whenever its time has come. */
  ghost predicate FailsafeStep(a: App, b: App, v: Vehicle, now: Time) {
    if a.setup.phase == T.Active && v.systemId.Some? && now >= a.timers.failsafe &&
       a.timers.index < |F.PARAMETER_NAMES|
    then
      b.setup == a.setup && Sends(a, b, ReadFailsafe(v.systemId.value, F.PARAMETER_NAMES[a.timers.index]), now) &&
      b.timers == a.timers.(
        index := if a.timers.index + 1 < |F.PARAMETER_NAMES| then a.timers.index + 1 else 0,
        failsafe := NextFailsafeDue(a.timers.index, a.failsafe.shown.phase == F.Accepted, now))
    else b == a
  }

  /** Once the set-up is active, the version is asked for while it is unknown, every two seconds. */
  ghost predicate VersionStep(a: App, b: App, v: Vehicle, now: Time) {
    if a.setup.phase == T.Active && v.systemId.Some? && v.metadata.None? && now >= a.timers.version
    then
      b.setup == a.setup && Sends(a, b, RequestVersion(v.systemId.value), now) &&
      b.timers == a.timers.(version := now + AUTOPILOT_VERSION_RETRY)
    else b == a
  }

  /** The same for the arming threshold. */
  ghost predicate ThresholdStep(a: App, b: App, v: Vehicle, now: Time) {
    if a.setup.phase == T.Active && v.systemId.Some? && !v.thresholdKnown && now >= a.timers.battery
    then
      b.setup == a.setup && Sends(a, b, ReadThreshold(v.systemId.value), now) &&
      b.timers == a.timers.(battery := now + BATTERY_PARAMETER_RETRY)
    else b == a
  }

  lemma FailsafeDoes(encode: Encoder, a: App, v: Vehicle, now: Time)
    ensures FailsafeStep(a, FailsafeRequested(encode, a, v, now), v, now)
  {
  }

  lemma VersionDoes(encode: Encoder, a: App, v: Vehicle, now: Time)
    ensures VersionStep(a, VersionAsked(encode, a, v, now), v, now)
    ensures RequestStep(a, VersionAsked(encode, a, v, now), v, now)
  {
  }

  lemma ThresholdDoes(encode: Encoder, a: App, v: Vehicle, now: Time)
    ensures ThresholdStep(a, ThresholdAsked(encode, a, v, now), v, now)
    ensures RequestStep(a, ThresholdAsked(encode, a, v, now), v, now)
  {
  }

  ghost predicate ReadySound(a: App, v: Vehicle) {
    PollSound(a, v) && a.setup == T.Entered(a.setup, v.connected, v.systemId)
  }

  lemma FailsafeIsSound(a: App, b: App, v: Vehicle, now: Time)
    requires ReadySound(a, v) && FailsafeStep(a, b, v, now)
    ensures ReadySound(b, v)
  {
    if b != a {
      ReadyIsOrdered(a, v);
      ReadStaysOrdered(a, b, v, now);
      OrderedIsReady(a, b, v);
    }
  }

  lemma ReadyIsOrdered(a: App, v: Vehicle)
    requires ReadySound(a, v)
    ensures Ordered(a.setup, a.attempts, a.timers)
  {
  }

  lemma ReadStaysOrdered(a: App, b: App, v: Vehicle, now: Time)
    requires Ordered(a.setup, a.attempts, a.timers) && FailsafeStep(a, b, v, now) && b != a
    ensures Ordered(b.setup, b.attempts, b.timers) && b.setup == a.setup && SameSession(a, b)
  {
    var x := ReadHandedOver(a, b, v, now);
    ReadOrders(a.setup, a.attempts, a.timers, x, b.attempts, b.timers);
  }

  lemma ReadOrders(setup: T.Setup, attempts: seq<Attempt>, timers: Timers, x: Attempt, more: seq<Attempt>,
                   next: Timers)
    requires Ordered(setup, attempts, timers) && setup.phase == T.Active && more == attempts + [x]
    requires x.request.ReadFailsafe? && x.request.name == F.PARAMETER_NAMES[timers.index] && x.at >= timers.failsafe
    requires next == timers.(
      index := if timers.index + 1 < |F.PARAMETER_NAMES| then timers.index + 1 else 0,
      failsafe := NextFailsafeDue(timers.index, x.accepted, x.at))
    ensures Ordered(setup, more, next)
  {
    AppendFailsafeRead(setup, attempts, timers, x);
  }

  lemma ReadHandedOver(a: App, b: App, v: Vehicle, now: Time) returns (x: Attempt)
    requires FailsafeStep(a, b, v, now) && b != a
    ensures b.setup == a.setup && a.setup.phase == T.Active && SameSession(a, b) && b.attempts == a.attempts + [x]
    ensures a.timers.index < |F.PARAMETER_NAMES| && x.request.ReadFailsafe? && x.at >= a.timers.failsafe
    ensures x.request.name == F.PARAMETER_NAMES[a.timers.index]
    ensures b.timers == a.timers.(
      index := if a.timers.index + 1 < |F.PARAMETER_NAMES| then a.timers.index + 1 else 0,
      failsafe := NextFailsafeDue(a.timers.index, x.accepted, x.at))
  {
    x := b.attempts[|a.attempts|];
  }

  /** What stays sound only has to be ordered anew. */
  lemma OrderedIsReady(a: App, b: App, v: Vehicle)
    requires ReadySound(a, v) && b.setup == a.setup && SameSession(a, b)
    requires Ordered(b.setup, b.attempts, b.timers)
    ensures ReadySound(b, v)
  {
  }

  lemma RequestIsSound(a: App, b: App, v: Vehicle, now: Time)
    requires ReadySound(a, v) && RequestStep(a, b, v, now)
    ensures ReadySound(b, v)
  {
    if b != a {
      AppendRead(a.setup, a.attempts, a.timers, b.attempts[|a.attempts|]);
    }
  }

  lemma DrivenIsSound(encode: Encoder, a: App, v: Vehicle, now: Time)
    requires SessionSound(a) && (v.connected ==> v.systemId.Some?)
    ensures ReadySound(Driven(encode, a, v, now), v)
  {
    EntryDoes(a, v, now);
    var connected := ConnectionUpdated(SessionEntered(a, v), v, now);
    EntryIsSound(a, connected, v, now);
    HeartbeatDoes(encode, connected, v, now);
    var beaten := HeartbeatSent(encode, connected, v, now);
    HeartbeatIsSound(connected, beaten, v, now);
    SetupDoes(encode, beaten, v, now);
    var ready := SetupUpdated(encode, beaten, v, now);
    SetupIsSound(beaten, ready, v, now);
    FailsafeDoes(encode, ready, v, now);
    var failsafe := FailsafeRequested(encode, ready, v, now);
    FailsafeIsSound(ready, failsafe, v, now);
    VersionDoes(encode, failsafe, v, now);
    var version := VersionAsked(encode, failsafe, v, now);
    RequestIsSound(failsafe, version, v, now);
    ThresholdDoes(encode, version, v, now);
    RequestIsSound(version, ThresholdAsked(encode, version, v, now), v, now);
  }

  lemma ReadyIsSessionSound(a: App, v: Vehicle)
    requires ReadySound(a, v)
    ensures SessionSound(a)
  {
  }

  lemma PollStaysSound(encode: Encoder, a: App, input: PollInput)
    requires SessionSound(a)
    ensures SessionSound(Polled(encode, a, input))
  {
    IngestStaysSound(a, input.messages, input.now);
    var ingested := Ingested(a, input.messages, input.now);
    DrivenStaysSound(encode, ingested, input.now);
  }

  lemma DrivenStaysSound(encode: Encoder, a: App, now: Time)
    requires SessionSound(a)
    ensures SessionSound(Driven(encode, a, VehicleAt(a.log, now), now))
  {
    var v := VehicleAt(a.log, now);
    LinkedVehicleIsNamed(a.log, now);
    DrivenIsSound(encode, a, v, now);
    ReadyIsSessionSound(Driven(encode, a, v, now), v);
  }

  /**
   Every run of polls, with any messages, times and write results, keeps the wire in order: in each
   session the stream commands come in table order (`T.InTableOrder`), version and parameter reads
   only after all six were accepted and with no stream command after them, failsafe reads cycle
   through the four names with the owed pauses, and heartbeats are at least a second apart.
   */
  lemma {:induction false} RunStaysSound(encode: Encoder, start: Link, sinks: seq<Sink>, inputs: seq<PollInput>)
    ensures SessionSound(Run(encode, Initial(start, sinks), inputs))
  {
    if inputs != [] {
      RunStaysSound(encode, start, sinks, inputs[..|inputs| - 1]);
      PollStaysSound(encode, Run(encode, Initial(start, sinks), inputs[..|inputs| - 1]), inputs[|inputs| - 1]);
    }
  }

  /** So after every poll of every run, one vehicle is served and nobody else is spoken to. */
  lemma EveryPollServesOneVehicle(encode: Encoder, start: Link, sinks: seq<Sink>, inputs: seq<PollInput>,
                                  input: PollInput)
    ensures var a := Run(encode, Initial(start, sinks), inputs);
            var ingested := Ingested(a, input.messages, input.now);
            var v := VehicleAt(ingested.log, input.now);
            var b := Run(encode, Initial(start, sinks), inputs + [input]);
      Agrees(b, v) && Continues(SessionEntered(ingested, v), b, v)
  {
    RunStaysSound(encode, start, sinks, inputs);
    PollServesOneVehicle(encode, Run(encode, Initial(start, sinks), inputs), input);
    assert (inputs + [input])[..|inputs|] == inputs;
  }

  /** The bounds of one session, spelled out: at most 18 stream commands, and reads only after six acceptances. */
  lemma SessionBounds(a: App)
    requires SessionSound(a)
    ensures |Intervals(a.attempts)| <= 18
    ensures HasRead(a.attempts) ==>
      a.setup.completed == T.STREAM_COUNT && forall s | 0 <= s < T.STREAM_COUNT :: T.AskedFor(Intervals(a.attempts), s)
  {
    if a.setup.vehicle.Some? {
      T.TableOrderIsBounded(Intervals(a.attempts), a.setup.vehicle.value);
      if HasRead(a.attempts) {
        forall s: nat | s < T.STREAM_COUNT ensures T.AskedFor(Intervals(a.attempts), s) {
          T.TableOrderSkipsNothing(Intervals(a.attempts), a.setup.vehicle.value, s);
        }
      }
    }
  }

  /** A poll that leaves the set-up failed hands over heartbeats only. */
  lemma FailedSetupLeavesHeartbeats(encode: Encoder, a: App, input: PollInput)
    requires T.Coherent(a.setup) && Polled(encode, a, input).setup.phase == T.Failed
    ensures var ingested := Ingested(a, input.messages, input.now);
            var before := SessionEntered(ingested, VehicleAt(ingested.log, input.now)).attempts;
            var after := Polled(encode, a, input).attempts;
      before <= after && forall i :: |before| <= i < |after| ==> after[i].request.CompanionHeartbeat?
  {
    IngestStaysCoherent(a, input.messages, input.now);
    var ingested := Ingested(a, input.messages, input.now);
    FailedPollSendsHeartbeats(encode, ingested, VehicleAt(ingested.log, input.now), input.now);
  }

  lemma FailedPollSendsHeartbeats(encode: Encoder, a: App, v: Vehicle, now: Time)
    requires Driven(encode, a, v, now).setup.phase == T.Failed
    ensures var before := SessionEntered(a, v).attempts;
            var after := Driven(encode, a, v, now).attempts;
      before <= after && forall i :: |before| <= i < |after| ==> after[i].request.CompanionHeartbeat?
  {
    var connected := ConnectionUpdated(SessionEntered(a, v), v, now);
    var beaten := HeartbeatSent(encode, connected, v, now);
    var ready := SetupUpdated(encode, beaten, v, now);
    RequestsKeepSetup(encode, ready, v, now);
    assert ready.attempts == beaten.attempts;
  }

  lemma RequestsKeepSetup(encode: Encoder, a: App, v: Vehicle, now: Time)
    ensures var b := ThresholdAsked(encode, VersionAsked(encode, FailsafeRequested(encode, a, v, now), v, now), v, now);
      b.setup == a.setup && (a.setup.phase != T.Active ==> b == a)
  {
    var failsafe := FailsafeRequested(encode, a, v, now);
    assert failsafe.setup == a.setup;
    assert VersionAsked(encode, failsafe, v, now).setup == a.setup;
  }

  // ----- a gap closed inside one poll

  /**
   A connection gap is seen only if some poll observes it. When the link was silent for more than
   the timeout but the next poll already reads a heartbeat of the same vehicle, the observer opens
   a new session and forgets all telemetry, while the finished stream set-up is kept.
   */
  lemma UnseenGapKeepsSetup(encode: Encoder, a: App, m: D.Message, now: Time)
    requires T.Coherent(a.setup) && a.setup.phase == T.Active
    requires L.LastHeartbeat(a.log).Some? && now - L.LastHeartbeat(a.log).value.at > L.HEARTBEAT_TIMEOUT
    requires m.body.HeartbeatBody? && m.body.autopilot != D.AUTOPILOT_INVALID && m.component == D.AUTOPILOT_COMPONENT
    requires a.setup.vehicle == Some(m.system)
    ensures var b := Polled(encode, a, PollInput([m], now));
      L.SessionStart(b.log) == |a.log| < |b.log| && b.setup == a.setup
  {
    var ingested := a.(log := D.Admit(a.log, m, now));
    PollOfHeartbeat(encode, a, m, now);
    HeartbeatReopens(a.log, m, now);
    KeptSetup(encode, ingested, VehicleAt(ingested.log, now), now);
    DrivenKeepsLog(encode, ingested, VehicleAt(ingested.log, now), now);
  }

  lemma PollOfHeartbeat(encode: Encoder, a: App, m: D.Message, now: Time)
    requires m.body.HeartbeatBody?
    ensures var ingested := a.(log := D.Admit(a.log, m, now));
      Polled(encode, a, PollInput([m], now)) == Driven(encode, ingested, VehicleAt(ingested.log, now), now)
  {
    IngestHeartbeat(a, m, now);
  }

  lemma DrivenKeepsLog(encode: Encoder, a: App, v: Vehicle, now: Time)
    ensures Driven(encode, a, v, now).log == a.log
  {
    var beaten := HeartbeatSent(encode, ConnectionUpdated(SessionEntered(a, v), v, now), v, now);
    assert beaten.log == a.log;
    var ready := SetupUpdated(encode, beaten, v, now);
    assert ready.log == a.log;
    var failsafe := FailsafeRequested(encode, ready, v, now);
    assert failsafe.log == a.log && VersionAsked(encode, failsafe, v, now).log == a.log;
  }

  lemma IngestHeartbeat(a: App, m: D.Message, now: Time)
    requires m.body.HeartbeatBody?
    ensures Ingested(a, [m], now) == a.(log := D.Admit(a.log, m, now))
  {
    assert [m][..0] == [];
    assert Ingested(a, [m], now) == MessageHandled(Ingested(a, [], now), m, now);
  }

  lemma HeartbeatReopens(log: L.Log, m: D.Message, now: Time)
    requires L.LastHeartbeat(log).Some? && now - L.LastHeartbeat(log).value.at > L.HEARTBEAT_TIMEOUT
    requires m.body.HeartbeatBody? && m.body.autopilot != D.AUTOPILOT_INVALID && m.component == D.AUTOPILOT_COMPONENT
    ensures var s := L.Stamped(now, D.EventOf(m).value);
      D.Admit(log, m, now) == log + [s] && L.SessionStart(log + [s]) == |log| &&
      Served(VehicleAt(log + [s], now)) == Some(m.system) && VehicleAt(log + [s], now).connected
  {
    var s := L.Stamped(now, D.EventOf(m).value);
    D.SessionStartAppend(log, s);
    D.LastHeartbeatAppend(log, s);
    L.LearnedHeartbeat(log + [s]);
  }

  /**
   The same when the heartbeat is another vehicle's: its stream set-up begins anew, but no disconnect
   was seen, so the failsafe reads go on where those of the previous vehicle stopped.
   */
  lemma UnseenSwapKeepsIndex(encode: Encoder, a: App, m: D.Message, now: Time)
    requires T.Coherent(a.setup) && a.setup.vehicle.Some? && a.setup.vehicle != Some(m.system) && a.seen.connected
    requires L.LastHeartbeat(a.log).Some? && now - L.LastHeartbeat(a.log).value.at > L.HEARTBEAT_TIMEOUT
    requires m.body.HeartbeatBody? && m.body.autopilot != D.AUTOPILOT_INVALID && m.component == D.AUTOPILOT_COMPONENT
    ensures var b := Polled(encode, a, PollInput([m], now));
      b.setup.vehicle == Some(m.system) && b.setup.phase == T.Configuring && b.setup.completed == 0 &&
      b.timers.index == a.timers.index && b.timers.failsafe == a.timers.failsafe
  {
    var ingested := a.(log := D.Admit(a.log, m, now));
    PollOfHeartbeat(encode, a, m, now);
    HeartbeatReopens(a.log, m, now);
    SwappedSetup(encode, ingested, VehicleAt(ingested.log, now), now);
  }

  lemma SwappedSetup(encode: Encoder, a: App, v: Vehicle, now: Time)
    requires v.connected && v.systemId.Some? && a.setup.vehicle != v.systemId && a.seen.connected
    ensures var b := Driven(encode, a, v, now);
      b.setup.vehicle == v.systemId && b.setup.phase == T.Configuring && b.setup.completed == 0 &&
      b.timers.index == a.timers.index && b.timers.failsafe == a.timers.failsafe
  {
    var ready := SetupUpdated(encode, HeartbeatSent(encode,
      ConnectionUpdated(SessionEntered(a, v), v, now), v, now), v, now);
    assert ready.setup.phase == T.Configuring && ready.setup.vehicle == v.systemId && ready.setup.completed == 0;
    assert ready.timers.index == a.timers.index && ready.timers.failsafe == a.timers.failsafe;
    RequestsKeepSetup(encode, ready, v, now);
  }

  lemma KeptSetup(encode: Encoder, a: App, v: Vehicle, now: Time)
    requires a.setup.phase == T.Active && v.connected && a.setup.vehicle == v.systemId != None
    ensures Driven(encode, a, v, now).setup == a.setup
  {
    var ready := SetupUpdated(encode, HeartbeatSent(encode,
      ConnectionUpdated(SessionEntered(a, v), v, now), v, now), v, now);
    assert ready.setup == a.setup;
    RequestsKeepSetup(encode, ready, v, now);
  }
}
