/**
 What the frames of a run come to on the transport, and what the failsafe reads come to over a whole
 link: from the poll that sees the vehicle connect to the next such poll, unseen changes of vehicle
 included.
 */
module SessionWire {
  import opened Basics
  import opened CompanionModel
  import D = MavlinkDecoder
  import F = CompanionLinkFailsafe
  import H = SessionHistory
  import O = Observation
  import P = SessionProtocol
  import T = TelemetryStreamConfigurator

  // ----- the frames of a run

  function Added(before: seq<Attempt>, after: seq<Attempt>): seq<Attempt> {
    if before <= after then after[|before|..] else []
  }

  /** The frames handed over in one poll. */
  function PollAttempts(encode: Encoder, a: App, input: PollInput): seq<Attempt> {
    var ingested := Ingested(a, input.messages, input.now);
    Added(SessionEntered(ingested, VehicleAt(ingested.log, input.now)).attempts, Polled(encode, a, input).attempts)
  }

  /** The frames handed over in all polls of a run, whatever sessions they belong to. */
  function AllAttempts(encode: Encoder, a: App, inputs: seq<PollInput>): seq<Attempt> {
    if inputs == [] then []
    else
      var earlier := inputs[..|inputs| - 1];
      AllAttempts(encode, a, earlier) + PollAttempts(encode, Run(encode, a, earlier), inputs[|inputs| - 1])
  }

  // ----- on the wire

  /** From `before` to `after` the wire grew by a frame if it was sent, and otherwise by a proper prefix of it. */
  predicate Grew(before: seq<bv8>, after: seq<bv8>, frame: seq<bv8>, sent: bool) {
    before <= after && after[|before|..] <= frame && (sent <==> after[|before|..] == frame)
  }

  /** From `before` to `after` the wire grew by the frames of `attempts`, one after the other. */
  ghost predicate OnWire(encode: Encoder, before: seq<bv8>, after: seq<bv8>, attempts: seq<Attempt>)
    decreases |attempts|
  {
    if attempts == [] then after == before
    else
      var last := attempts[|attempts| - 1];
      exists middle :: OnWire(encode, before, middle, attempts[..|attempts| - 1]) &&
        Grew(middle, after, encode(last.request), last.sent)
  }

  lemma OneMoreOnWire(encode: Encoder, before: seq<bv8>, middle: seq<bv8>, after: seq<bv8>, attempts: seq<Attempt>,
                      x: Attempt)
    requires OnWire(encode, before, middle, attempts) && Grew(middle, after, encode(x.request), x.sent)
    ensures OnWire(encode, before, after, attempts + [x])
  {
    var all := attempts + [x];
    assert all[|all| - 1] == x && all[..|all| - 1] == attempts;
    assert OnWire(encode, before, middle, all[..|all| - 1]) &&
      Grew(middle, after, encode(all[|all| - 1].request), x.sent);
  }

  lemma {:induction false} OnWireOn(encode: Encoder, before: seq<bv8>, middle: seq<bv8>, after: seq<bv8>,
                                    attempts: seq<Attempt>, more: seq<Attempt>)
    requires OnWire(encode, before, middle, attempts) && OnWire(encode, middle, after, more)
    ensures OnWire(encode, before, after, attempts + more)
    decreases |more|
  {
    if more == [] {
      assert attempts + more == attempts;
    } else {
      var shorter, x := more[..|more| - 1], more[|more| - 1];
      var end :| OnWire(encode, middle, end, shorter) && Grew(end, after, encode(x.request), x.sent);
      OnWireOn(encode, before, middle, end, attempts, shorter);
      OneMoreOnWire(encode, before, end, after, attempts + shorter, x);
      assert attempts + more == attempts + shorter + [x];
    }
  }

  /** `b` follows from `a` by handing over frames, all of which are on the wire as far as they were sent. */
  ghost predicate WireStep(encode: Encoder, a: App, b: App) {
    a.attempts <= b.attempts && OnWire(encode, a.link.wire, b.link.wire, b.attempts[|a.attempts|..])
  }

  lemma WireStepOn(encode: Encoder, a: App, b: App, c: App)
    requires WireStep(encode, a, b) && WireStep(encode, b, c)
    ensures WireStep(encode, a, c)
  {
    var first, second := b.attempts[|a.attempts|..], c.attempts[|b.attempts|..];
    OnWireOn(encode, a.link.wire, b.link.wire, c.link.wire, first, second);
    assert c.attempts[|a.attempts|..] == first + second;
  }

  /** `b` has handed over nothing, or one frame. */
  ghost predicate HandsOver(encode: Encoder, a: App, b: App) {
    (b.link == a.link && b.attempts == a.attempts) || exists request, now :: Hands(encode, a, b, request, now)
  }

  ghost predicate Hands(encode: Encoder, a: App, b: App, request: Request, now: Time) {
    var (c, sent) := Transmitted(encode, a, request, now);
    b.link == c.link && b.attempts == c.attempts
  }

  lemma HandingOverIsOnWire(encode: Encoder, a: App, b: App)
    requires HandsOver(encode, a, b)
    ensures WireStep(encode, a, b)
  {
    if b.link == a.link && b.attempts == a.attempts {
      assert b.attempts[|a.attempts|..] == [];
    } else {
      var request, now :| Hands(encode, a, b, request, now);
      O.WriteIsHonest(a.link, encode(request));
      var x := b.attempts[|a.attempts|];
      assert b.attempts[|a.attempts|..] == [] + [x];
      OneMoreOnWire(encode, a.link.wire, a.link.wire, b.link.wire, [], x);
    }
  }

  lemma StepsHandOver(encode: Encoder, a: App, v: Vehicle, now: Time)
    ensures HandsOver(encode, a, HeartbeatSent(encode, a, v, now))
    ensures HandsOver(encode, a, FailsafeRequested(encode, a, v, now))
    ensures HandsOver(encode, a, VersionAsked(encode, a, v, now))
    ensures HandsOver(encode, a, ThresholdAsked(encode, a, v, now))
  {
    if v.systemId.Some? {
      var system := v.systemId.value;
      if HeartbeatSent(encode, a, v, now).attempts != a.attempts {
        assert Hands(encode, a, HeartbeatSent(encode, a, v, now), CompanionHeartbeat(system), now);
      }
      if FailsafeRequested(encode, a, v, now).attempts != a.attempts {
        assert Hands(encode, a, FailsafeRequested(encode, a, v, now),
                     ReadFailsafe(system, F.PARAMETER_NAMES[a.timers.index]), now);
      }
      if VersionAsked(encode, a, v, now).attempts != a.attempts {
        assert Hands(encode, a, VersionAsked(encode, a, v, now), RequestVersion(system), now);
      }
      if ThresholdAsked(encode, a, v, now).attempts != a.attempts {
        assert Hands(encode, a, ThresholdAsked(encode, a, v, now), ReadThreshold(system), now);
      }
    }
  }

  lemma SetupHandsOver(encode: Encoder, a: App, v: Vehicle, now: Time)
    ensures HandsOver(encode, a, SetupUpdated(encode, a, v, now))
  {
    var (setup, request) := T.Updated(a.setup, v.connected, v.systemId, now);
    if request.Some? {
      assert Hands(encode, a, SetupUpdated(encode, a, v, now), SetInterval(request.value), now);
    }
  }

  lemma DrivenIsOnWire(encode: Encoder, a: App, v: Vehicle, now: Time)
    ensures WireStep(encode, SessionEntered(a, v), Driven(encode, a, v, now))
    ensures SessionEntered(a, v).link == a.link
  {
    var entered := SessionEntered(a, v);
    var connected := ConnectionUpdated(entered, v, now);
    assert HandsOver(encode, entered, connected);
    HandingOverIsOnWire(encode, entered, connected);
    var beaten := HeartbeatSent(encode, connected, v, now);
    StepsHandOver(encode, connected, v, now);
    HandingOverIsOnWire(encode, connected, beaten);
    WireStepOn(encode, entered, connected, beaten);
    var ready := SetupUpdated(encode, beaten, v, now);
    SetupHandsOver(encode, beaten, v, now);
    HandingOverIsOnWire(encode, beaten, ready);
    WireStepOn(encode, entered, beaten, ready);
    RequestsAreOnWire(encode, ready, v, now);
    WireStepOn(encode, entered, ready, Driven(encode, a, v, now));
  }

  lemma RequestsAreOnWire(encode: Encoder, a: App, v: Vehicle, now: Time)
    ensures WireStep(encode, a,
      ThresholdAsked(encode, VersionAsked(encode, FailsafeRequested(encode, a, v, now), v, now), v, now))
  {
    var failsafe := FailsafeRequested(encode, a, v, now);
    StepsHandOver(encode, a, v, now);
    HandingOverIsOnWire(encode, a, failsafe);
    var version := VersionAsked(encode, failsafe, v, now);
    StepsHandOver(encode, failsafe, v, now);
    HandingOverIsOnWire(encode, failsafe, version);
    WireStepOn(encode, a, failsafe, version);
    StepsHandOver(encode, version, v, now);
    HandingOverIsOnWire(encode, version, ThresholdAsked(encode, version, v, now));
    WireStepOn(encode, a, version, ThresholdAsked(encode, version, v, now));
  }

  lemma {:induction false} MessagesWriteNothing(a: App, messages: seq<D.Message>, now: Time)
    ensures Ingested(a, messages, now).link == a.link
  {
    if messages != [] {
      MessagesWriteNothing(a, messages[..|messages| - 1], now);
    }
  }

  lemma PollIsOnWire(encode: Encoder, a: App, input: PollInput)
    ensures OnWire(encode, a.link.wire, Polled(encode, a, input).link.wire, PollAttempts(encode, a, input))
  {
    MessagesWriteNothing(a, input.messages, input.now);
    var ingested := Ingested(a, input.messages, input.now);
    DrivenIsOnWire(encode, ingested, VehicleAt(ingested.log, input.now), input.now);
  }

  /**
   The bytes on the wire after every run of polls are those of the frames handed over, in order and
   nothing else: each frame whole if it was reported sent, and otherwise a proper prefix of it.
   */
  lemma {:induction false} RunIsOnWire(encode: Encoder, start: App, inputs: seq<PollInput>)
    ensures OnWire(encode, start.link.wire, Run(encode, start, inputs).link.wire, AllAttempts(encode, start, inputs))
  {
    if inputs != [] {
      var earlier := inputs[..|inputs| - 1];
      RunIsOnWire(encode, start, earlier);
      var before := Run(encode, start, earlier);
      PollIsOnWire(encode, before, inputs[|inputs| - 1]);
      OnWireOn(encode, start.link.wire, before.link.wire, Run(encode, start, inputs).link.wire,
               AllAttempts(encode, start, earlier), PollAttempts(encode, before, inputs[|inputs| - 1]));
    }
  }

  // ----- after a failure

  predicate OnlyHeartbeats(attempts: seq<Attempt>) {
    forall i :: 0 <= i < |attempts| ==> attempts[i].request.CompanionHeartbeat?
  }

  /** The set-up of `vehicle` has failed. */
  predicate HasFailed(a: App, vehicle: nat) {
    T.Coherent(a.setup) && a.setup.phase == T.Failed && a.setup.vehicle == Some(vehicle)
  }

  lemma MessagesKeepFailed(a: App, messages: seq<D.Message>, now: Time)
    requires a.setup.phase == T.Failed
    ensures Ingested(a, messages, now).setup == a.setup
    ensures Ingested(a, messages, now).log == H.LogAfter(a.log, messages, now)
  {
    if messages != [] {
      MessagesKeepFailed(a, messages[..|messages| - 1], now);
    }
  }

  lemma FailedPollKeepsFailed(encode: Encoder, a: App, input: PollInput, vehicle: nat)
    requires HasFailed(a, vehicle) && Served(H.SeenAt(a.log, input)) == Some(vehicle)
    ensures Polled(encode, a, input).setup == a.setup
    ensures Polled(encode, a, input).log == H.LogAfter(a.log, input.messages, input.now)
    ensures OnlyHeartbeats(PollAttempts(encode, a, input))
  {
    MessagesKeepFailed(a, input.messages, input.now);
    var ingested := Ingested(a, input.messages, input.now);
    H.DrivenProjects(encode, ingested, H.SeenAt(a.log, input), input.now);
    P.FailedPollSendsHeartbeats(encode, ingested, H.SeenAt(a.log, input), input.now);
  }

  lemma OneMorePoll(encode: Encoder, a: App, earlier: seq<PollInput>, last: PollInput)
    ensures Run(encode, a, earlier + [last]) == Polled(encode, Run(encode, a, earlier), last)
    ensures AllAttempts(encode, a, earlier + [last]) ==
      AllAttempts(encode, a, earlier) + PollAttempts(encode, Run(encode, a, earlier), last)
    ensures H.LogAfterPolls(a.log, earlier + [last]) ==
      H.LogAfter(H.LogAfterPolls(a.log, earlier), last.messages, last.now)
  {
    assert (earlier + [last])[..|earlier|] == earlier;
  }

  /** A failed set-up stays failed and leaves heartbeats only, for as long as its vehicle is served. */
  lemma {:induction false} FailedStaysQuiet(encode: Encoder, a: App, inputs: seq<PollInput>, vehicle: nat)
    requires HasFailed(a, vehicle) && H.ServesThroughout(a.log, inputs, vehicle)
    ensures Run(encode, a, inputs).setup == a.setup && Run(encode, a, inputs).log == H.LogAfterPolls(a.log, inputs)
    ensures OnlyHeartbeats(AllAttempts(encode, a, inputs))
    decreases |inputs|
  {
    if inputs != [] {
      var earlier, last := H.CutLast(inputs);
      H.ServesEarlier(a.log, inputs, earlier, last, vehicle);
      FailedStaysQuiet(encode, a, earlier, vehicle);
      FailedPollKeepsFailed(encode, Run(encode, a, earlier), last, vehicle);
      OneMorePoll(encode, a, earlier, last);
    }
  }

  /**
   From the first poll that leaves a set-up failed on, every poll of the run that still serves the
   vehicle hands over heartbeats only, and the set-up stays as it is.
   */
  lemma FailedSetupStaysQuiet(encode: Encoder, start: Link, sinks: seq<Sink>, before: seq<PollInput>,
                              later: seq<PollInput>, vehicle: nat)
    requires var a := Run(encode, Initial(start, sinks), before);
      a.setup.phase == T.Failed && a.setup.vehicle == Some(vehicle) && H.ServesThroughout(a.log, later, vehicle)
    ensures var a := Run(encode, Initial(start, sinks), before);
      Run(encode, a, later).setup == a.setup && OnlyHeartbeats(AllAttempts(encode, a, later))
  {
    P.RunStaysSound(encode, start, sinks, before);
    FailedStaysQuiet(encode, Run(encode, Initial(start, sinks), before), later, vehicle);
  }

  // ----- the failsafe reads of a link

  /** Whether the last poll of a run saw the vehicle connected. */
  predicate LinkedAfter(inputs: seq<PollInput>) {
    inputs != [] && H.SeenAt(H.LogAfterPolls([], inputs[..|inputs| - 1]), inputs[|inputs| - 1]).connected
  }

  /** The failsafe reads handed over since the last poll that newly saw the vehicle connected. */
  function LinkReads(encode: Encoder, a: App, inputs: seq<PollInput>): (asked: seq<Attempt>)
    ensures AreReads(asked)
  {
    if inputs == [] then []
    else
      var earlier := inputs[..|inputs| - 1];
      var before := if LinkedAfter(inputs) && !LinkedAfter(earlier) then [] else LinkReads(encode, a, earlier);
      before + P.FailsafeReads(PollAttempts(encode, Run(encode, a, earlier), inputs[|inputs| - 1]))
  }

  predicate AreReads(asked: seq<Attempt>) {
    forall i :: 0 <= i < |asked| ==> asked[i].request.ReadFailsafe?
  }

  /** The reads start with the first name and cycle with the owed pauses; the timers say when to go on, and where. */
  predicate Linked(asked: seq<Attempt>, timers: Timers) {
    AreReads(asked) && P.Cycles(asked) && P.TimerMatches(asked, timers) &&
    (if asked == [] then timers.index == 0 else asked[0].request.name == F.ACTION_NAME)
  }

  /** In state `x` of a poll that began with the frames `base`, after the reads `prior`. */
  ghost predicate ReadsOn(base: seq<Attempt>, prior: seq<Attempt>, x: App) {
    base <= x.attempts && Linked(prior + P.FailsafeReads(x.attempts[|base|..]), x.timers)
  }

  /** A step that reads nothing. */
  ghost predicate NoRead(x: App, y: App) {
    y.timers.index == x.timers.index && y.timers.failsafe == x.timers.failsafe &&
    (y.attempts == x.attempts ||
     (|y.attempts| == |x.attempts| + 1 && y.attempts[..|x.attempts|] == x.attempts &&
      !y.attempts[|x.attempts|].request.ReadFailsafe?))
  }

  lemma NoReadKeepsReads(base: seq<Attempt>, prior: seq<Attempt>, x: App, y: App)
    requires ReadsOn(base, prior, x) && NoRead(x, y)
    ensures ReadsOn(base, prior, y)
  {
    if y.attempts != x.attempts {
      var last := y.attempts[|x.attempts|];
      assert y.attempts == x.attempts + [last];
      assert y.attempts[|base|..] == x.attempts[|base|..] + [last];
      P.AppendAttempt(x.attempts[|base|..], last);
      assert P.FailsafeReads(y.attempts[|base|..]) == P.FailsafeReads(x.attempts[|base|..]);
    }
    OtherTimersDoNotMatter(prior + P.FailsafeReads(x.attempts[|base|..]), x.timers, y.timers);
  }

  lemma OtherTimersDoNotMatter(asked: seq<Attempt>, timers: Timers, others: Timers)
    requires Linked(asked, timers) && others.index == timers.index && others.failsafe == timers.failsafe
    ensures Linked(asked, others)
  {
  }

  lemma ReadContinues(asked: seq<Attempt>, timers: Timers, x: Attempt)
    requires Linked(asked, timers) && x.request.ReadFailsafe?
    requires x.request.name == F.PARAMETER_NAMES[timers.index] && x.at >= timers.failsafe
    ensures Linked(asked + [x], timers.(
      index := if timers.index + 1 < |F.PARAMETER_NAMES| then timers.index + 1 else 0,
      failsafe := NextFailsafeDue(timers.index, x.accepted, x.at)))
  {
    P.AppendToCycle(asked, timers, x);
  }

  lemma FailsafeKeepsReads(base: seq<Attempt>, prior: seq<Attempt>, x: App, y: App, v: Vehicle, now: Time)
    requires ReadsOn(base, prior, x) && P.FailsafeStep(x, y, v, now)
    ensures ReadsOn(base, prior, y) && y.seen.connected == x.seen.connected
  {
    if y != x {
      var last := y.attempts[|x.attempts|];
      ReadIsAdded(base, prior, x.attempts, last);
      ReadContinues(prior + P.FailsafeReads(x.attempts[|base|..]), x.timers, last);
    }
  }

  lemma ReadIsAdded(base: seq<Attempt>, prior: seq<Attempt>, attempts: seq<Attempt>, x: Attempt)
    requires base <= attempts && x.request.ReadFailsafe?
    ensures base <= attempts + [x]
    ensures prior + P.FailsafeReads((attempts + [x])[|base|..]) == prior + P.FailsafeReads(attempts[|base|..]) + [x]
  {
    var tail := attempts[|base|..];
    assert (attempts + [x])[|base|..] == tail + [x];
    P.AppendAttempt(tail, x);
    H.Regroup(prior, P.FailsafeReads(tail), [x]);
  }

  lemma EntryKeepsReads(a: App, b: App, v: Vehicle, now: Time, asked: seq<Attempt>)
    requires P.EntryStep(a, b, v, now) && Linked(asked, a.timers)
    ensures ReadsOn(b.attempts, if v.connected && !a.seen.connected then [] else asked, b)
  {
    var prior := if v.connected && !a.seen.connected then [] else asked;
    assert b.attempts[|b.attempts|..] == [] && prior + [] == prior;
  }

  lemma DrivenKeepsReads(encode: Encoder, a: App, v: Vehicle, now: Time, asked: seq<Attempt>)
    requires (v.connected ==> v.systemId.Some?) && Linked(asked, a.timers)
    ensures var prior := if v.connected && !a.seen.connected then [] else asked;
      ReadsOn(SessionEntered(a, v).attempts, prior, Driven(encode, a, v, now))
    ensures Driven(encode, a, v, now).seen.connected == v.connected
  {
    var prior := if v.connected && !a.seen.connected then [] else asked;
    var connected := ConnectionUpdated(SessionEntered(a, v), v, now);
    P.EntryDoes(a, v, now);
    EntryKeepsReads(a, connected, v, now, asked);
    BeatAndSetupKeepReads(encode, connected, v, now, connected.attempts, prior);
    var ready := SetupUpdated(encode, HeartbeatSent(encode, connected, v, now), v, now);
    RequestsKeepReads(encode, ready, v, now, connected.attempts, prior);
  }

  lemma BeatAndSetupKeepReads(encode: Encoder, a: App, v: Vehicle, now: Time, base: seq<Attempt>, prior: seq<Attempt>)
    requires ReadsOn(base, prior, a)
    ensures var b := SetupUpdated(encode, HeartbeatSent(encode, a, v, now), v, now);
      ReadsOn(base, prior, b) && b.seen.connected == a.seen.connected
  {
    var beaten := HeartbeatSent(encode, a, v, now);
    P.HeartbeatDoes(encode, a, v, now);
    BeatReadsNothing(a, beaten, v, now);
    NoReadKeepsReads(base, prior, a, beaten);
    P.SetupDoes(encode, beaten, v, now);
    SetupReadsNothing(beaten, SetupUpdated(encode, beaten, v, now), v, now);
    NoReadKeepsReads(base, prior, beaten, SetupUpdated(encode, beaten, v, now));
  }

  lemma BeatReadsNothing(a: App, b: App, v: Vehicle, now: Time)
    requires P.HeartbeatStep(a, b, v, now)
    ensures NoRead(a, b) && b.seen.connected == a.seen.connected
  {
  }

  lemma SetupReadsNothing(a: App, b: App, v: Vehicle, now: Time)
    requires P.SetupStep(a, b, v, now)
    ensures NoRead(a, b) && b.seen.connected == a.seen.connected
  {
  }

  lemma RequestReadsNothing(a: App, b: App, v: Vehicle, now: Time)
    requires P.RequestStep(a, b, v, now)
    ensures NoRead(a, b) && b.seen.connected == a.seen.connected
  {
  }

  lemma RequestsKeepReads(encode: Encoder, a: App, v: Vehicle, now: Time, base: seq<Attempt>, prior: seq<Attempt>)
    requires ReadsOn(base, prior, a)
    ensures var b := ThresholdAsked(
        encode, VersionAsked(encode, FailsafeRequested(encode, a, v, now), v, now), v, now);
      ReadsOn(base, prior, b) && b.seen.connected == a.seen.connected
  {
    var failsafe := FailsafeRequested(encode, a, v, now);
    P.FailsafeDoes(encode, a, v, now);
    FailsafeKeepsReads(base, prior, a, failsafe, v, now);
    var version := VersionAsked(encode, failsafe, v, now);
    P.VersionDoes(encode, failsafe, v, now);
    RequestReadsNothing(failsafe, version, v, now);
    NoReadKeepsReads(base, prior, failsafe, version);
    var threshold := ThresholdAsked(encode, version, v, now);
    P.ThresholdDoes(encode, version, v, now);
    RequestReadsNothing(version, threshold, v, now);
    NoReadKeepsReads(base, prior, version, threshold);
  }

  lemma {:induction false} MessagesKeepTimers(a: App, messages: seq<D.Message>, now: Time)
    ensures var b := Ingested(a, messages, now);
      b.timers == a.timers && b.seen == a.seen && b.log == H.LogAfter(a.log, messages, now)
  {
    if messages != [] {
      MessagesKeepTimers(a, messages[..|messages| - 1], now);
    }
  }

  lemma PollKeepsReads(encode: Encoder, a: App, input: PollInput, asked: seq<Attempt>)
    requires Linked(asked, a.timers)
    ensures var b, v := Polled(encode, a, input), H.SeenAt(a.log, input);
      b.log == H.LogAfter(a.log, input.messages, input.now) && b.seen.connected == v.connected &&
      Linked((if v.connected && !a.seen.connected then [] else asked) + P.FailsafeReads(PollAttempts(encode, a, input)),
             b.timers)
  {
    MessagesKeepTimers(a, input.messages, input.now);
    var ingested, v := Ingested(a, input.messages, input.now), H.SeenAt(a.log, input);
    P.LinkedVehicleIsNamed(ingested.log, input.now);
    DrivenKeepsReads(encode, ingested, v, input.now, asked);
    H.DrivenProjects(encode, ingested, v, input.now);
  }

  /**
   Over a whole link of every run, from the poll that newly saw the vehicle connected on: the first
   failsafe read is for the first of the four names, and the reads cycle through the names with the
   owed pauses, whichever vehicles they were addressed to.
   */
  lemma {:induction false} LinkReadsCycle(encode: Encoder, start: Link, sinks: seq<Sink>, inputs: seq<PollInput>)
    ensures var a := Run(encode, Initial(start, sinks), inputs);
      Linked(LinkReads(encode, Initial(start, sinks), inputs), a.timers) &&
      a.log == H.LogAfterPolls([], inputs) && a.seen.connected == LinkedAfter(inputs)
  {
    if inputs != [] {
      var earlier := inputs[..|inputs| - 1];
      LinkReadsCycle(encode, start, sinks, earlier);
      PollKeepsReads(encode, Run(encode, Initial(start, sinks), earlier), inputs[|inputs| - 1],
                     LinkReads(encode, Initial(start, sinks), earlier));
    }
  }
}
