/**
 Which frames every poll of a run hands over, told by what happened before: the times of the polls, the
 vehicle they saw, the marks of the stream set-up, and the frames handed over earlier.
 */
module PollFrames {
  import opened Basics
  import opened CompanionModel
  import D = MavlinkDecoder
  import F = CompanionLinkFailsafe
  import H = SessionHistory
  import L = VehicleLog
  import P = SessionProtocol
  import S = StreamSetupTiming
  import T = TelemetryStreamConfigurator
  import V = VehicleView
  import W = SessionWire

  // ----- what a poll sees, by positions in the log

  /** The log entry that `v` was identified by. */
  ghost predicate IdentifiedBy(v: Vehicle, e: L.Event)
    requires e.Heartbeat?
  {
    v.systemId == Some(e.system) && v.componentId == Some(e.component) && v.mode == Some(e.customMode) &&
    (v.armed <==> e.baseMode & 128 != 0)
  }

  /**
   The view of a poll: linked while the last heartbeat is at most 3 s old, identified by it, with the last
   firmware reported in the session, and with the arming threshold known while a voltage is shown.
   */
  lemma SeenByPositions(log: L.Log, now: Time, metadata: L.Metadata)
    ensures var v := VehicleAt(log, now);
      (v.connected <==> L.LinkAlive(log, now)) &&
      (forall h :: L.IsLastHeartbeat(log, h) ==> IdentifiedBy(v, log[h].event)) &&
      (v.metadata == Some(metadata) <==>
         exists i :: L.IsLatest(log, L.Firmware, i) && metadata == log[i].event.metadata) &&
      (v.thresholdKnown <==> ThresholdHeard(log, now))
  {
    L.ConnectedIsAlive(log, now);
    V.IdentityIsLastHeartbeat(log, now);
    V.MetadataIsLatest(log, now, metadata);
    ThresholdIsHeard(log, now);
  }

  /** A voltage is fresh on a live link, and a threshold was reported in the session. */
  ghost predicate ThresholdHeard(log: L.Log, now: Time) {
    L.LinkAlive(log, now) &&
    (exists i :: V.FreshAt(log, now, L.Voltage, 10 * SECOND, i)) && exists i :: L.IsLatest(log, L.Threshold, i)
  }

  lemma ThresholdIsHeard(log: L.Log, now: Time)
    ensures VehicleAt(log, now).thresholdKnown <==> ThresholdHeard(log, now)
  {
    L.ConnectedIsAlive(log, now);
    V.FreshIsKnown(log, now, L.Voltage, 10 * SECOND);
    L.KnownIffSampled(log, L.Threshold);
    L.LearnedIsLatest(log, L.Threshold);
  }

  // ----- what is due, by history

  /** When the next heartbeat is due: a second after the last poll at which one was. */
  function BeatDue(inputs: seq<PollInput>): Time {
    if inputs == [] then 0
    else
      var due := BeatDue(inputs[..|inputs| - 1]);
      var now := inputs[|inputs| - 1].now;
      if now >= due then now + 1 * SECOND else due
  }

  /** The vehicle the last poll served. */
  function ServedAfter(inputs: seq<PollInput>): Option<nat> {
    if inputs == [] then None
    else Served(H.SeenAt(H.LogAfterPolls([], inputs[..|inputs| - 1]), inputs[|inputs| - 1]))
  }

  /** When a poll last saw the vehicle newly connected. */
  function LinkedSince(inputs: seq<PollInput>): Time {
    if inputs == [] then 0
    else
      var earlier := inputs[..|inputs| - 1];
      if W.LinkedAfter(inputs) && !W.LinkedAfter(earlier) then inputs[|inputs| - 1].now else LinkedSince(earlier)
  }

  /** The failsafe parameter to read next: the names in turn. */
  function NextName(asked: seq<Attempt>): string
    requires W.AreReads(asked)
  {
    if asked == [] then F.ACTION_NAME
    else
      var last := asked[|asked| - 1].request.name;
      if last == F.ACTION_NAME then F.TIMEOUT_NAME
      else if last == F.TIMEOUT_NAME then F.OPTIONS_NAME
      else if last == F.OPTIONS_NAME then F.GCS_ID_NAME
      else F.ACTION_NAME
  }

  /** When it is due: at once on a new link, then after the pause its predecessor owes. */
  function ReadDue(asked: seq<Attempt>, since: Time): Time
    requires W.AreReads(asked)
  {
    if asked == [] then since else asked[|asked| - 1].at + P.PauseAfter(asked[|asked| - 1])
  }

  datatype Question = Version | Threshold | Failsafe

  predicate Asks(question: Question, r: Request) {
    match question
    case Version => r.RequestVersion?
    case Threshold => r.ReadThreshold?
    case Failsafe => r.ReadFailsafe?
  }

  /** When a question may be asked again: two seconds after it was last asked, in whatever session. */
  function AskDue(question: Question, attempts: seq<Attempt>): Time {
    if attempts == [] then 0
    else
      var last := attempts[|attempts| - 1];
      if Asks(question, last.request) then last.at + 2 * SECOND else AskDue(question, attempts[..|attempts| - 1])
  }

  // ----- what a poll owes, in this order

  function When(condition: bool, request: Request): seq<Request> {
    if condition then [request] else []
  }

  /** The stream command that an update owes to vehicle `s`, given the vehicle served before and its marks. */
  function IntervalOwed(s: nat, previous: Option<nat>, marks: seq<S.Mark>, now: Time): seq<Request> {
    if previous != Some(s) then [SetInterval(T.IntervalRequest(s, 0, 0))]
    else When(!S.Over(marks) && S.Due(marks, now) && S.Tries(marks) < 3,
              SetInterval(T.IntervalRequest(s, S.Accepted(marks), S.Tries(marks))))
  }

  /** The frames handed over on this link before poll `input`: none if it is the poll that sees it come up. */
  function ReadsBefore(encode: Encoder, a: App, inputs: seq<PollInput>, input: PollInput): (asked: seq<Attempt>)
    ensures W.AreReads(asked)
  {
    if W.LinkedAfter(inputs + [input]) && !W.LinkedAfter(inputs) then [] else W.LinkReads(encode, a, inputs)
  }

  /** The marks of the stream set-up once the ACKs of poll `input` are in. */
  function MarksBefore(inputs: seq<PollInput>, input: PollInput): seq<S.Mark> {
    S.Marks(H.SetupEvents([], inputs) + H.AckEvents(H.LogAfterPolls([], inputs), input.messages, input.now))
  }

  /** The stream set-up at that point. */
  function SetupBefore(inputs: seq<PollInput>, input: PollInput): T.Setup {
    T.Run(T.START,
          H.SetupEvents([], inputs) + H.AckEvents(H.LogAfterPolls([], inputs), input.messages, input.now)).setup
  }

  /** All six streams of the vehicle were accepted. */
  predicate SetupDone(inputs: seq<PollInput>) {
    S.Accepted(S.Marks(H.SetupEvents([], inputs))) == 6
  }

  /** What is owed to vehicle `s`, in order. */
  function OwedInAll(s: nat, v: Vehicle, beatDue: Time, previous: Option<nat>, marks: seq<S.Mark>, done: bool,
                     asked: seq<Attempt>, since: Time, all: seq<Attempt>, now: Time): seq<Request>
    requires W.AreReads(asked)
  {
    When(now >= beatDue, CompanionHeartbeat(s)) + IntervalOwed(s, previous, marks, now) +
    Questions(s, done, v, NextName(asked), ReadDue(asked, since), AskDue(Version, all), AskDue(Threshold, all), now)
  }

  /** Once the set-up is done: the failsafe read, and the questions whose answers are not known, as they are due. */
  function Questions(s: nat, done: bool, v: Vehicle, name: string, readDue: Time, versionDue: Time,
                     thresholdDue: Time, now: Time): seq<Request> {
    When(done && now >= readDue, ReadFailsafe(s, name)) +
    When(done && v.metadata.None? && now >= versionDue, RequestVersion(s)) +
    When(done && !v.thresholdKnown && now >= thresholdDue, ReadThreshold(s))
  }

  /** Everything that poll `input` owes after the polls `inputs`; nothing without a vehicle. */
  function Owed(encode: Encoder, a: App, inputs: seq<PollInput>, input: PollInput): seq<Request> {
    var v := H.SeenAt(H.LogAfterPolls([], inputs), input);
    if Served(v).None? then []
    else OwedInAll(Served(v).value, v, BeatDue(inputs), ServedAfter(inputs), MarksBefore(inputs, input),
                   SetupDone(inputs + [input]), ReadsBefore(encode, a, inputs, input), LinkedSince(inputs + [input]),
                   W.AllAttempts(encode, a, inputs), input.now)
  }

  // ----- one poll, by its timers

  predicate Stamped(frames: seq<Attempt>, requests: seq<Request>, now: Time, accepted: bool) {
    |frames| == |requests| &&
    forall i :: 0 <= i < |frames| ==>
      frames[i].request == requests[i] && frames[i].at == now && frames[i].accepted == accepted
  }

  predicate SeesAccepted(a: App) {
    a.failsafe.shown.phase == F.Accepted
  }

  /** `y` follows from `x` by handing over `requests`. */
  ghost predicate Grown(x: App, y: App, requests: seq<Request>, now: Time) {
    x.attempts <= y.attempts && Stamped(y.attempts[|x.attempts|..], requests, now, SeesAccepted(x)) &&
    y.failsafe == x.failsafe
  }

  lemma GrownOn(x: App, y: App, z: App, first: seq<Request>, second: seq<Request>, now: Time)
    requires Grown(x, y, first, now) && Grown(y, z, second, now)
    ensures Grown(x, z, first + second, now)
  {
    assert z.attempts[|x.attempts|..] == y.attempts[|x.attempts|..] + z.attempts[|y.attempts|..];
  }

  lemma SendingGrows(x: App, y: App, condition: bool, request: Request, now: Time)
    requires if condition then P.Sends(x, y, request, now) else y.attempts == x.attempts && y.failsafe == x.failsafe
    ensures Grown(x, y, When(condition, request), now)
  {
  }

  /** What an entered poll owes to vehicle `s`, by the timers and the set-up. */
  function OwedBy(s: nat, timers: Timers, interval: Option<T.IntervalRequest>, done: bool, v: Vehicle, now: Time)
    : seq<Request>
    requires timers.index < 4
  {
    CommandsOwed(s, timers, interval, now) + QuestionsOwed(s, timers, done, v, now)
  }

  function CommandsOwed(s: nat, timers: Timers, interval: Option<T.IntervalRequest>, now: Time): seq<Request> {
    When(now >= timers.heartbeat, CompanionHeartbeat(s)) +
    (if interval.Some? then [SetInterval(interval.value)] else [])
  }

  function QuestionsOwed(s: nat, timers: Timers, done: bool, v: Vehicle, now: Time): seq<Request>
    requires timers.index < 4
  {
    Questions(s, done, v, F.PARAMETER_NAMES[timers.index], timers.failsafe, timers.version, timers.battery, now)
  }

  /** What it leaves of the timers. */
  ghost predicate TimersMove(before: Timers, after: Timers, done: bool, v: Vehicle, now: Time) {
    after.heartbeat == (if now >= before.heartbeat then now + 1 * SECOND else before.heartbeat) &&
    QuestionTimersMove(before, after, done, v, now)
  }

  ghost predicate QuestionTimersMove(before: Timers, after: Timers, done: bool, v: Vehicle, now: Time) {
    after.version ==
      (if done && v.metadata.None? && now >= before.version then now + 2 * SECOND else before.version) &&
    after.battery ==
      (if done && !v.thresholdKnown && now >= before.battery then now + 2 * SECOND else before.battery) &&
    (!(done && now >= before.failsafe) ==> after.failsafe == before.failsafe && after.index == before.index)
  }

  lemma CommandsGrow(a: App, beaten: App, ready: App, v: Vehicle, now: Time, s: nat)
    requires Served(v) == Some(s) && P.HeartbeatStep(a, beaten, v, now) && P.SetupStep(beaten, ready, v, now)
    ensures var (setup, interval) := T.Updated(a.setup, true, Some(s), now);
      Grown(a, ready, CommandsOwed(s, a.timers, interval, now), now) && ready.setup == setup &&
      ready.timers == a.timers.(heartbeat := if now >= a.timers.heartbeat then now + 1 * SECOND else a.timers.heartbeat)
  {
    var interval := T.Updated(a.setup, true, Some(s), now).1;
    SendingGrows(a, beaten, now >= a.timers.heartbeat, CompanionHeartbeat(s), now);
    IntervalGrows(beaten, ready, interval, now);
    GrownOn(a, beaten, ready, When(now >= a.timers.heartbeat, CompanionHeartbeat(s)),
            if interval.Some? then [SetInterval(interval.value)] else [], now);
  }

  lemma IntervalGrows(x: App, y: App, interval: Option<T.IntervalRequest>, now: Time)
    requires if interval.Some? then P.Sends(x, y, SetInterval(interval.value), now)
             else y.attempts == x.attempts && y.failsafe == x.failsafe
    ensures Grown(x, y, if interval.Some? then [SetInterval(interval.value)] else [], now)
  {
  }

  lemma QuestionsGrow(a: App, read: App, asked: App, b: App, v: Vehicle, now: Time, s: nat)
    requires Served(v) == Some(s) && a.timers.index < 4
    requires P.FailsafeStep(a, read, v, now) && P.VersionStep(read, asked, v, now) && P.ThresholdStep(asked, b, v, now)
    ensures var done := a.setup.phase == T.Active;
      Grown(a, b, QuestionsOwed(s, a.timers, done, v, now), now) && b.setup == a.setup &&
      b.timers.heartbeat == a.timers.heartbeat && QuestionTimersMove(a.timers, b.timers, done, v, now)
  {
    var done := a.setup.phase == T.Active;
    var first := When(done && now >= a.timers.failsafe, ReadFailsafe(s, F.PARAMETER_NAMES[a.timers.index]));
    var second := When(done && v.metadata.None? && now >= a.timers.version, RequestVersion(s));
    var third := When(done && !v.thresholdKnown && now >= a.timers.battery, ReadThreshold(s));
    SendingGrows(a, read, first != [], ReadFailsafe(s, F.PARAMETER_NAMES[a.timers.index]), now);
    SendingGrows(read, asked, second != [], RequestVersion(s), now);
    SendingGrows(asked, b, third != [], ReadThreshold(s), now);
    GrownOn(a, read, asked, first, second, now);
    GrownOn(a, asked, b, first + second, third, now);
  }

  /** The steps of a poll that serves `s`, each handing over what is due. */
  lemma DrivenGrows(encode: Encoder, a: App, v: Vehicle, now: Time, s: nat)
    requires Served(v) == Some(s) && a.timers.index < 4
    ensures var entered := ConnectionUpdated(SessionEntered(a, v), v, now);
            var (setup, interval) := T.Updated(a.setup, true, Some(s), now);
            var b := Driven(encode, a, v, now);
      P.EntryStep(a, entered, v, now) && entered.timers.index < 4 &&
      Grown(entered, b, OwedBy(s, entered.timers, interval, setup.phase == T.Active, v, now), now) &&
      TimersMove(entered.timers, b.timers, setup.phase == T.Active, v, now) && b.setup == setup
  {
    var entered := ConnectionUpdated(SessionEntered(a, v), v, now);
    P.EntryDoes(a, v, now);
    var beaten := HeartbeatSent(encode, entered, v, now);
    P.HeartbeatDoes(encode, entered, v, now);
    var ready := SetupUpdated(encode, beaten, v, now);
    P.SetupDoes(encode, beaten, v, now);
    CommandsGrow(entered, beaten, ready, v, now, s);
    var read := FailsafeRequested(encode, ready, v, now);
    P.FailsafeDoes(encode, ready, v, now);
    var asked := VersionAsked(encode, read, v, now);
    P.VersionDoes(encode, read, v, now);
    P.ThresholdDoes(encode, asked, v, now);
    var b := ThresholdAsked(encode, asked, v, now);
    QuestionsGrow(ready, read, asked, b, v, now, s);
    CommandsThenQuestions(entered, ready, b, v, now, s);
  }

  lemma CommandsThenQuestions(entered: App, ready: App, b: App, v: Vehicle, now: Time, s: nat)
    requires var (setup, interval) := T.Updated(entered.setup, true, Some(s), now);
      Grown(entered, ready, CommandsOwed(s, entered.timers, interval, now), now) && ready.setup == setup &&
      ready.timers ==
        entered.timers.(
          heartbeat := if now >= entered.timers.heartbeat then now + 1 * SECOND else entered.timers.heartbeat)
    requires ready.timers.index < 4
    requires var done := ready.setup.phase == T.Active;
      Grown(ready, b, QuestionsOwed(s, ready.timers, done, v, now), now) && b.setup == ready.setup &&
      b.timers.heartbeat == ready.timers.heartbeat && QuestionTimersMove(ready.timers, b.timers, done, v, now)
    ensures var (setup, interval) := T.Updated(entered.setup, true, Some(s), now);
      Grown(entered, b, OwedBy(s, entered.timers, interval, setup.phase == T.Active, v, now), now) &&
      TimersMove(entered.timers, b.timers, setup.phase == T.Active, v, now) && b.setup == setup
  {
    var (setup, interval) := T.Updated(entered.setup, true, Some(s), now);
    GrownOn(entered, ready, b, CommandsOwed(s, entered.timers, interval, now),
            QuestionsOwed(s, ready.timers, setup.phase == T.Active, v, now), now);
  }

  /** A poll that serves nobody hands over nothing. */
  lemma IdleGrows(encode: Encoder, a: App, v: Vehicle, now: Time)
    requires Served(v) == None && (v.connected ==> v.systemId.Some?)
    ensures var b := Driven(encode, a, v, now);
      P.EntryStep(a, ConnectionUpdated(SessionEntered(a, v), v, now), v, now) &&
      b.attempts == SessionEntered(a, v).attempts && TimersMove(a.timers, b.timers, false, v, now) &&
      b.setup == T.IDLE
  {
    var entered := ConnectionUpdated(SessionEntered(a, v), v, now);
    P.EntryDoes(a, v, now);
    var beaten := HeartbeatSent(encode, entered, v, now);
    P.HeartbeatDoes(encode, entered, v, now);
    var ready := SetupUpdated(encode, beaten, v, now);
    P.SetupDoes(encode, beaten, v, now);
    P.RequestsKeepSetup(encode, ready, v, now);
  }

  // ----- the set-up, by its marks

  lemma IntervalIsOwed(before: T.Setup, marks: seq<S.Mark>, s: nat, now: Time)
    requires S.Tells(before, marks)
    ensures var interval := T.Updated(before, true, Some(s), now).1;
      (if interval.Some? then [SetInterval(interval.value)] else []) == IntervalOwed(s, before.vehicle, marks, now)
  {
    S.UpdateFollows(before, marks, true, Some(s), now);
  }

  lemma {:induction false} AcksKeepVehicle(a: App, messages: seq<D.Message>, now: Time)
    ensures Ingested(a, messages, now).setup.vehicle == a.setup.vehicle
  {
    if messages != [] {
      AcksKeepVehicle(a, messages[..|messages| - 1], now);
    }
  }

  /** The state of the set-up when a poll comes to its update, and what the update leaves. */
  lemma SetupAtPoll(encode: Encoder, start: Link, sinks: seq<Sink>, inputs: seq<PollInput>, input: PollInput)
    ensures var a := Run(encode, Initial(start, sinks), inputs);
            var setup := Ingested(a, input.messages, input.now).setup;
            var v := H.SeenAt(H.LogAfterPolls([], inputs), input);
      setup == SetupBefore(inputs, input) && setup.vehicle == a.setup.vehicle &&
      S.Tells(setup, MarksBefore(inputs, input)) &&
      (T.Updated(setup, v.connected, v.systemId, input.now).0.phase == T.Active <==> SetupDone(inputs + [input]))
  {
    var a := Run(encode, Initial(start, sinks), inputs);
    H.RunFromProjects(encode, Initial(start, sinks), T.START, [], inputs);
    H.IngestProjects(a, input.messages, input.now, T.START, H.SetupEvents([], inputs),
                     [] + H.FailsafeInputs([], inputs));
    AcksKeepVehicle(a, input.messages, input.now);
    SetupOfPoll(Ingested(a, input.messages, input.now).setup, inputs, input);
  }

  lemma SetupOfPoll(setup: T.Setup, inputs: seq<PollInput>, input: PollInput)
    requires setup == SetupBefore(inputs, input)
    ensures var v := H.SeenAt(H.LogAfterPolls([], inputs), input);
      S.Tells(setup, MarksBefore(inputs, input)) &&
      (T.Updated(setup, v.connected, v.systemId, input.now).0.phase == T.Active <==> SetupDone(inputs + [input]))
  {
    var before := H.LogAfterPolls([], inputs);
    var events := H.SetupEvents([], inputs) + H.AckEvents(before, input.messages, input.now);
    var update := H.UpdateEvent(H.SeenAt(before, input), input.now);
    S.RunTells(events);
    S.RunTells(events + [update]);
    T.RunAppend(T.START, events, update);
    H.SetupEventsStep([], inputs, input);
  }

  // ----- the timers, by history

  lemma AskAppend(question: Question, all: seq<Attempt>, x: Attempt)
    ensures AskDue(question, all + [x]) ==
      if Asks(question, x.request) then x.at + 2 * SECOND else AskDue(question, all)
  {
    assert (all + [x])[..|all|] == all;
  }

  function Count(question: Question, requests: seq<Request>): nat {
    if requests == [] then 0
    else Count(question, requests[..|requests| - 1]) + if Asks(question, requests[|requests| - 1]) then 1 else 0
  }

  lemma {:induction false} CountBoth(question: Question, first: seq<Request>, second: seq<Request>)
    ensures Count(question, first + second) == Count(question, first) + Count(question, second)
    decreases |second|
  {
    if second == [] {
      assert first + second == first;
    } else {
      CountBoth(question, first, second[..|second| - 1]);
      assert (first + second)[..|first + second| - 1] == first + second[..|second| - 1];
    }
  }

  lemma CountOne(question: Question, condition: bool, r: Request)
    ensures Count(question, When(condition, r)) == if condition && Asks(question, r) then 1 else 0
  {
  }

  /** A poll owes each question once if it is due, and else not at all. */
  lemma CountWhenDue(question: Question, s: nat, done: bool, v: Vehicle, name: string, readDue: Time,
                     versionDue: Time, thresholdDue: Time, now: Time)
    ensures Count(question, Questions(s, done, v, name, readDue, versionDue, thresholdDue, now)) ==
      if done && (match question
        case Version => v.metadata.None? && now >= versionDue
        case Threshold => !v.thresholdKnown && now >= thresholdDue
        case Failsafe => now >= readDue)
      then 1 else 0
  {
    CountThree(question, done && now >= readDue, ReadFailsafe(s, name),
               done && v.metadata.None? && now >= versionDue, RequestVersion(s),
               done && !v.thresholdKnown && now >= thresholdDue, ReadThreshold(s));
  }

  lemma CountThree(question: Question, first: bool, x: Request, second: bool, y: Request, third: bool, z: Request)
    ensures Count(question, When(first, x) + When(second, y) + When(third, z)) ==
      (if first && Asks(question, x) then 1 else 0) + (if second && Asks(question, y) then 1 else 0) +
      (if third && Asks(question, z) then 1 else 0)
  {
    CountBoth(question, When(first, x) + When(second, y), When(third, z));
    CountBoth(question, When(first, x), When(second, y));
    CountOne(question, first, x);
    CountOne(question, second, y);
    CountOne(question, third, z);
  }

  lemma OnlyQuestionsCount(question: Question, s: nat, beat: bool, intervals: seq<Request>, questions: seq<Request>)
    requires |intervals| <= 1 && forall i :: 0 <= i < |intervals| ==> intervals[i].SetInterval?
    ensures Count(question, When(beat, CompanionHeartbeat(s)) + intervals + questions) == Count(question, questions)
  {
    CountBoth(question, When(beat, CompanionHeartbeat(s)) + intervals, questions);
    CountBoth(question, When(beat, CompanionHeartbeat(s)), intervals);
  }

  lemma {:induction false} AskStamped(question: Question, all: seq<Attempt>, frames: seq<Attempt>,
                                      requests: seq<Request>, now: Time, accepted: bool)
    requires Stamped(frames, requests, now, accepted)
    ensures AskDue(question, all + frames) ==
      if Count(question, requests) > 0 then now + 2 * SECOND else AskDue(question, all)
    decreases |frames|
  {
    if frames == [] {
      assert all + frames == all;
    } else {
      var last := |frames| - 1;
      AskStamped(question, all, frames[..last], requests[..last], now, accepted);
      AskAppend(question, all + frames[..last], frames[last]);
      assert all + frames == all + frames[..last] + [frames[last]];
    }
  }

  lemma {:induction false} ReadsStamped(frames: seq<Attempt>, requests: seq<Request>, now: Time, accepted: bool)
    requires Stamped(frames, requests, now, accepted)
    ensures |P.FailsafeReads(frames)| == Count(Failsafe, requests)
    decreases |frames|
  {
    if frames != [] {
      ReadsStamped(frames[..|frames| - 1], requests[..|requests| - 1], now, accepted);
    }
  }

  lemma ReadIsOwed(asked: seq<Attempt>, timers: Timers, since: Time)
    requires W.Linked(asked, timers) && (asked == [] ==> timers.failsafe == since)
    ensures timers.index < 4 && F.PARAMETER_NAMES[timers.index] == NextName(asked)
    ensures timers.failsafe == ReadDue(asked, since)
  {
  }

  /** The timers stand where history puts them; `asked` are the reads of the link, all frames are `all`. */
  ghost predicate Punctual(timers: Timers, inputs: seq<PollInput>, all: seq<Attempt>, asked: seq<Attempt>) {
    timers.heartbeat == BeatDue(inputs) && timers.version == AskDue(Version, all) &&
    timers.battery == AskDue(Threshold, all) &&
    (W.LinkedAfter(inputs) && asked == [] ==> timers.failsafe == LinkedSince(inputs))
  }

  /** The timers at the start of poll `input`. */
  ghost predicate PunctualAt(timers: Timers, inputs: seq<PollInput>, input: PollInput, all: seq<Attempt>,
                             asked: seq<Attempt>) {
    timers.heartbeat == BeatDue(inputs) && timers.version == AskDue(Version, all) &&
    timers.battery == AskDue(Threshold, all) &&
    (W.LinkedAfter(inputs + [input]) && asked == [] ==> timers.failsafe == LinkedSince(inputs + [input]))
  }

  lemma OneMoreInput(inputs: seq<PollInput>, input: PollInput)
    ensures var all := inputs + [input]; all[..|all| - 1] == inputs && all[|all| - 1] == input
    ensures W.LinkedAfter(inputs + [input]) == H.SeenAt(H.LogAfterPolls([], inputs), input).connected
    ensures LinkedSince(inputs + [input]) ==
      if W.LinkedAfter(inputs + [input]) && !W.LinkedAfter(inputs) then input.now else LinkedSince(inputs)
    ensures BeatDue(inputs + [input]) ==
      if input.now >= BeatDue(inputs) then input.now + 1 * SECOND else BeatDue(inputs)
    ensures ServedAfter(inputs + [input]) == Served(H.SeenAt(H.LogAfterPolls([], inputs), input))
  {
    assert (inputs + [input])[..|inputs|] == inputs;
  }

  /** Entering a poll restarts the reads of a new link and leaves the other timers. */
  lemma EntryIsPunctual(a: App, b: App, v: Vehicle, inputs: seq<PollInput>, input: PollInput, all: seq<Attempt>,
                        asked: seq<Attempt>)
    requires Punctual(a.timers, inputs, all, asked) && W.Linked(asked, a.timers)
    requires v == H.SeenAt(H.LogAfterPolls([], inputs), input) && P.EntryStep(a, b, v, input.now)
    requires a.seen.connected == W.LinkedAfter(inputs)
    ensures var reads' := if W.LinkedAfter(inputs + [input]) && !W.LinkedAfter(inputs) then [] else asked;
      PunctualAt(b.timers, inputs, input, all, reads') && W.Linked(reads', b.timers)
  {
    OneMoreInput(inputs, input);
  }

  /** What a poll owes by its timers is what it owes by history. */
  lemma OwedByHistory(s: nat, timers: Timers, setup: T.Setup, v: Vehicle, inputs: seq<PollInput>, input: PollInput,
                      all: seq<Attempt>, asked: seq<Attempt>, marks: seq<S.Mark>, done: bool)
    requires PunctualAt(timers, inputs, input, all, asked) && W.Linked(asked, timers) && S.Tells(setup, marks)
    requires W.LinkedAfter(inputs + [input])
    ensures timers.index < 4
    ensures OwedBy(s, timers, T.Updated(setup, true, Some(s), input.now).1, done, v, input.now) ==
      OwedInAll(s, v, BeatDue(inputs), setup.vehicle, marks, done, asked, LinkedSince(inputs + [input]), all, input.now)
  {
    ReadIsOwed(asked, timers, LinkedSince(inputs + [input]));
    CommandsByHistory(s, timers, setup, inputs, input, marks);
  }

  lemma CommandsByHistory(s: nat, timers: Timers, setup: T.Setup, inputs: seq<PollInput>, input: PollInput,
                          marks: seq<S.Mark>)
    requires timers.heartbeat == BeatDue(inputs) && S.Tells(setup, marks)
    ensures CommandsOwed(s, timers, T.Updated(setup, true, Some(s), input.now).1, input.now) ==
      When(input.now >= BeatDue(inputs), CompanionHeartbeat(s)) + IntervalOwed(s, setup.vehicle, marks, input.now)
  {
    IntervalIsOwed(setup, marks, s, input.now);
  }

  lemma OwedCount(question: Question, s: nat, timers: Timers, interval: Option<T.IntervalRequest>, done: bool,
                  v: Vehicle, now: Time)
    requires timers.index < 4
    ensures Count(question, OwedBy(s, timers, interval, done, v, now)) ==
      if done && (match question
        case Version => v.metadata.None? && now >= timers.version
        case Threshold => !v.thresholdKnown && now >= timers.battery
        case Failsafe => now >= timers.failsafe)
      then 1 else 0
  {
    OnlyQuestionsCount(question, s, now >= timers.heartbeat,
                       if interval.Some? then [SetInterval(interval.value)] else [],
                       QuestionsOwed(s, timers, done, v, now));
    CountWhenDue(question, s, done, v, F.PARAMETER_NAMES[timers.index], timers.failsafe, timers.version,
                 timers.battery, now);
  }

  /** After the poll the timers stand where the longer history puts them. */
  lemma PollIsPunctual(before: Timers, after: Timers, done: bool, v: Vehicle, inputs: seq<PollInput>,
                       input: PollInput, all: seq<Attempt>, asked: seq<Attempt>, frames: seq<Attempt>,
                       requests: seq<Request>, accepted: bool)
    requires PunctualAt(before, inputs, input, all, asked) && TimersMove(before, after, done, v, input.now)
    requires Stamped(frames, requests, input.now, accepted)
    requires Count(Version, requests) > 0 <==> done && v.metadata.None? && input.now >= before.version
    requires Count(Threshold, requests) > 0 <==> done && !v.thresholdKnown && input.now >= before.battery
    requires Count(Failsafe, requests) > 0 <==> done && input.now >= before.failsafe
    ensures Punctual(after, inputs + [input], all + frames, asked + P.FailsafeReads(frames))
  {
    OneMoreInput(inputs, input);
    AskStamped(Version, all, frames, requests, input.now, accepted);
    AskStamped(Threshold, all, frames, requests, input.now, accepted);
    ReadsStamped(frames, requests, input.now, accepted);
  }

  // ----- every poll of every run

  /** What the timers hold after a run. */
  ghost predicate RunPunctual(encode: Encoder, a: App, inputs: seq<PollInput>) {
    var b := Run(encode, a, inputs);
    Punctual(b.timers, inputs, W.AllAttempts(encode, a, inputs), W.LinkReads(encode, a, inputs)) &&
    b.setup.vehicle == ServedAfter(inputs)
  }

  lemma ServingPoll(encode: Encoder, a: App, inputs: seq<PollInput>, input: PollInput, s: nat, all: seq<Attempt>,
                    asked: seq<Attempt>, marks: seq<S.Mark>, done: bool)
    requires var v := H.SeenAt(H.LogAfterPolls([], inputs), input);
      Served(v) == Some(s) && (done <==> T.Updated(a.setup, true, Some(s), input.now).0.phase == T.Active)
    requires Punctual(a.timers, inputs, all, asked) && W.Linked(asked, a.timers) && S.Tells(a.setup, marks)
    requires a.seen.connected == W.LinkedAfter(inputs)
    ensures var v := H.SeenAt(H.LogAfterPolls([], inputs), input);
            var entered, b := ConnectionUpdated(SessionEntered(a, v), v, input.now), Driven(encode, a, v, input.now);
            var reads' := if W.LinkedAfter(inputs + [input]) && !W.LinkedAfter(inputs) then [] else asked;
            var requests := OwedInAll(s, v, BeatDue(inputs), a.setup.vehicle, marks, done, reads',
                                      LinkedSince(inputs + [input]), all, input.now);
      Grown(entered, b, requests, input.now) && entered.attempts == SessionEntered(a, v).attempts &&
      Punctual(b.timers, inputs + [input], all + b.attempts[|entered.attempts|..],
               reads' + P.FailsafeReads(b.attempts[|entered.attempts|..]))
  {
    var v := H.SeenAt(H.LogAfterPolls([], inputs), input);
    var entered, b := ConnectionUpdated(SessionEntered(a, v), v, input.now), Driven(encode, a, v, input.now);
    var reads' := if W.LinkedAfter(inputs + [input]) && !W.LinkedAfter(inputs) then [] else asked;
    OneMoreInput(inputs, input);
    DrivenGrows(encode, a, v, input.now, s);
    EntryIsPunctual(a, entered, v, inputs, input, all, asked);
    OwedByHistory(s, entered.timers, a.setup, v, inputs, input, all, reads', marks, done);
    var interval := T.Updated(a.setup, true, Some(s), input.now).1;
    OwedIsPunctual(s, entered.timers, b.timers, interval, done, v, inputs, input, all, reads',
                   b.attempts[|entered.attempts|..], SeesAccepted(entered));
  }

  lemma OwedIsPunctual(s: nat, before: Timers, after: Timers, interval: Option<T.IntervalRequest>, done: bool,
                       v: Vehicle, inputs: seq<PollInput>, input: PollInput, all: seq<Attempt>, asked: seq<Attempt>,
                       frames: seq<Attempt>, accepted: bool)
    requires before.index < 4 && TimersMove(before, after, done, v, input.now)
    requires PunctualAt(before, inputs, input, all, asked)
    requires Stamped(frames, OwedBy(s, before, interval, done, v, input.now), input.now, accepted)
    ensures Punctual(after, inputs + [input], all + frames, asked + P.FailsafeReads(frames))
  {
    OwedCount(Version, s, before, interval, done, v, input.now);
    OwedCount(Threshold, s, before, interval, done, v, input.now);
    OwedCount(Failsafe, s, before, interval, done, v, input.now);
    PollIsPunctual(before, after, done, v, inputs, input, all, asked, frames,
                   OwedBy(s, before, interval, done, v, input.now), accepted);
  }

  lemma IdlePoll(encode: Encoder, a: App, inputs: seq<PollInput>, input: PollInput, all: seq<Attempt>,
                 asked: seq<Attempt>)
    requires var v := H.SeenAt(H.LogAfterPolls([], inputs), input); Served(v) == None && !v.connected
    requires Punctual(a.timers, inputs, all, asked) && a.seen.connected == W.LinkedAfter(inputs)
    ensures var v := H.SeenAt(H.LogAfterPolls([], inputs), input);
            var b := Driven(encode, a, v, input.now);
      b.attempts == SessionEntered(a, v).attempts && b.setup == T.IDLE &&
      Punctual(b.timers, inputs + [input], all, asked)
  {
    var v := H.SeenAt(H.LogAfterPolls([], inputs), input);
    OneMoreInput(inputs, input);
    IdleGrows(encode, a, v, input.now);
  }

  lemma OneMoreRead(encode: Encoder, a: App, inputs: seq<PollInput>, input: PollInput)
    ensures W.LinkReads(encode, a, inputs + [input]) ==
      ReadsBefore(encode, a, inputs, input) + P.FailsafeReads(W.PollAttempts(encode, Run(encode, a, inputs), input))
  {
    assert (inputs + [input])[..|inputs|] == inputs;
  }

  /** The state a poll comes to once its messages are in. */
  lemma IngestedStands(encode: Encoder, start: Link, sinks: seq<Sink>, inputs: seq<PollInput>, input: PollInput)
    requires RunPunctual(encode, Initial(start, sinks), inputs)
    ensures var a := Ingested(Run(encode, Initial(start, sinks), inputs), input.messages, input.now);
            var v := H.SeenAt(H.LogAfterPolls([], inputs), input);
            var asked := W.LinkReads(encode, Initial(start, sinks), inputs);
      Punctual(a.timers, inputs, W.AllAttempts(encode, Initial(start, sinks), inputs), asked) &&
      W.Linked(asked, a.timers) && S.Tells(a.setup, MarksBefore(inputs, input)) &&
      a.seen.connected == W.LinkedAfter(inputs) && a.setup == SetupBefore(inputs, input) &&
      a.setup.vehicle == ServedAfter(inputs) &&
      VehicleAt(a.log, input.now) == v && (v.connected ==> v.systemId.Some?) &&
      (T.Updated(a.setup, v.connected, v.systemId, input.now).0.phase == T.Active <==> SetupDone(inputs + [input]))
  {
    var before := Run(encode, Initial(start, sinks), inputs);
    W.LinkReadsCycle(encode, start, sinks, inputs);
    W.MessagesKeepTimers(before, input.messages, input.now);
    SetupAtPoll(encode, start, sinks, inputs, input);
    P.LinkedVehicleIsNamed(Ingested(before, input.messages, input.now).log, input.now);
  }

  /** What a poll of `encode` from `a` hands over and leaves, after the frames `all` and the reads `asked`. */
  ghost predicate PollStands(encode: Encoder, a: App, inputs: seq<PollInput>, input: PollInput,
                             requests: seq<Request>, all: seq<Attempt>, asked: seq<Attempt>) {
    var b := Polled(encode, a, input);
    var frames := W.PollAttempts(encode, a, input);
    Stamped(frames, requests, input.now, SeesAccepted(b)) &&
    Punctual(b.timers, inputs + [input], all + frames, asked + P.FailsafeReads(frames))
  }

  lemma PollOwes(encode: Encoder, start: Link, sinks: seq<Sink>, inputs: seq<PollInput>, input: PollInput)
    requires RunPunctual(encode, Initial(start, sinks), inputs)
    ensures PollStands(encode, Run(encode, Initial(start, sinks), inputs), inputs, input,
                       Owed(encode, Initial(start, sinks), inputs, input),
                       W.AllAttempts(encode, Initial(start, sinks), inputs),
                       ReadsBefore(encode, Initial(start, sinks), inputs, input))
  {
    if Served(H.SeenAt(H.LogAfterPolls([], inputs), input)).Some? {
      ServingPollOwes(encode, start, sinks, inputs, input);
    } else {
      IdlePollOwes(encode, start, sinks, inputs, input);
    }
  }

  lemma ServingPollOwes(encode: Encoder, start: Link, sinks: seq<Sink>, inputs: seq<PollInput>, input: PollInput)
    requires RunPunctual(encode, Initial(start, sinks), inputs)
    requires Served(H.SeenAt(H.LogAfterPolls([], inputs), input)).Some?
    ensures PollStands(encode, Run(encode, Initial(start, sinks), inputs), inputs, input,
                       Owed(encode, Initial(start, sinks), inputs, input),
                       W.AllAttempts(encode, Initial(start, sinks), inputs),
                       ReadsBefore(encode, Initial(start, sinks), inputs, input))
  {
    IngestedStands(encode, start, sinks, inputs, input);
    var initial := Initial(start, sinks);
    var a := Run(encode, initial, inputs);
    ServingPoll(encode, Ingested(a, input.messages, input.now), inputs, input,
                Served(H.SeenAt(H.LogAfterPolls([], inputs), input)).value, W.AllAttempts(encode, initial, inputs),
                W.LinkReads(encode, initial, inputs), MarksBefore(inputs, input), SetupDone(inputs + [input]));
    FramesStand(encode, a, inputs, input, Owed(encode, initial, inputs, input), W.AllAttempts(encode, initial, inputs),
                ReadsBefore(encode, initial, inputs, input));
  }

  /** What an entered poll has grown by is what it hands over. */
  lemma FramesStand(encode: Encoder, a: App, inputs: seq<PollInput>, input: PollInput, requests: seq<Request>,
                    all: seq<Attempt>, asked: seq<Attempt>)
    requires var ingested := Ingested(a, input.messages, input.now);
             var v := VehicleAt(ingested.log, input.now);
             var entered, b := ConnectionUpdated(SessionEntered(ingested, v), v, input.now), Polled(encode, a, input);
      entered.attempts == SessionEntered(ingested, v).attempts && Grown(entered, b, requests, input.now) &&
      Punctual(b.timers, inputs + [input], all + b.attempts[|entered.attempts|..],
               asked + P.FailsafeReads(b.attempts[|entered.attempts|..]))
    ensures PollStands(encode, a, inputs, input, requests, all, asked)
  {
  }

  lemma IdlePollOwes(encode: Encoder, start: Link, sinks: seq<Sink>, inputs: seq<PollInput>, input: PollInput)
    requires RunPunctual(encode, Initial(start, sinks), inputs)
    requires Served(H.SeenAt(H.LogAfterPolls([], inputs), input)).None?
    ensures PollStands(encode, Run(encode, Initial(start, sinks), inputs), inputs, input, [],
                       W.AllAttempts(encode, Initial(start, sinks), inputs),
                       ReadsBefore(encode, Initial(start, sinks), inputs, input))
  {
    IngestedStands(encode, start, sinks, inputs, input);
    var initial := Initial(start, sinks);
    var a := Run(encode, initial, inputs);
    var all, asked := W.AllAttempts(encode, initial, inputs), W.LinkReads(encode, initial, inputs);
    IdlePoll(encode, Ingested(a, input.messages, input.now), inputs, input, all, asked);
    OneMoreInput(inputs, input);
    NoFrames(encode, a, input);
    NoFramesStand(encode, a, inputs, input, all, asked);
  }

  lemma NoFrames(encode: Encoder, a: App, input: PollInput)
    requires var ingested := Ingested(a, input.messages, input.now);
      Polled(encode, a, input).attempts == SessionEntered(ingested, VehicleAt(ingested.log, input.now)).attempts
    ensures W.PollAttempts(encode, a, input) == []
  {
  }

  lemma NoFramesStand(encode: Encoder, a: App, inputs: seq<PollInput>, input: PollInput, all: seq<Attempt>,
                      asked: seq<Attempt>)
    requires W.PollAttempts(encode, a, input) == []
    requires Punctual(Polled(encode, a, input).timers, inputs + [input], all, asked)
    ensures PollStands(encode, a, inputs, input, [], all, asked)
  {
    assert all + [] == all && asked + [] == asked;
  }

  lemma {:induction false} RunStaysPunctual(encode: Encoder, start: Link, sinks: seq<Sink>, inputs: seq<PollInput>)
    ensures RunPunctual(encode, Initial(start, sinks), inputs)
    decreases |inputs|
  {
    if inputs != [] {
      var earlier, last := H.CutLast(inputs);
      RunStaysPunctual(encode, start, sinks, earlier);
      PollOwes(encode, start, sinks, earlier, last);
      OneMoreRead(encode, Initial(start, sinks), earlier, last);
      W.OneMorePoll(encode, Initial(start, sinks), earlier, last);
      P.EveryPollServesOneVehicle(encode, start, sinks, earlier, last);
      W.LinkReadsCycle(encode, start, sinks, earlier);
      W.MessagesKeepTimers(Run(encode, Initial(start, sinks), earlier), last.messages, last.now);
      OneMoreInput(earlier, last);
    }
  }

  /**
   The frames of every poll of every run, by history alone: exactly those that are owed, in order, each
   stamped with the time of the poll and with the failsafe verdict of the poll.
   */
  lemma PollHandsOverOwed(encode: Encoder, start: Link, sinks: seq<Sink>, inputs: seq<PollInput>, input: PollInput)
    ensures var a := Run(encode, Initial(start, sinks), inputs);
      Stamped(W.PollAttempts(encode, a, input), Owed(encode, Initial(start, sinks), inputs, input), input.now,
              SeesAccepted(Polled(encode, a, input)))
  {
    RunStaysPunctual(encode, start, sinks, inputs);
    PollOwes(encode, start, sinks, inputs, input);
  }

  // ----- what follows

  /** A question is put by a poll exactly once if it is due, and not otherwise. */
  predicate IsDue(question: Question, encode: Encoder, a: App, inputs: seq<PollInput>, input: PollInput) {
    var v := H.SeenAt(H.LogAfterPolls([], inputs), input);
    var all := W.AllAttempts(encode, a, inputs);
    Served(v).Some? && SetupDone(inputs + [input]) &&
    match question
    case Version => v.metadata.None? && input.now >= AskDue(Version, all)
    case Threshold => !v.thresholdKnown && input.now >= AskDue(Threshold, all)
    case Failsafe =>
      input.now >= ReadDue(ReadsBefore(encode, a, inputs, input), LinkedSince(inputs + [input]))
  }

  lemma QuestionsWhenDue(encode: Encoder, a: App, inputs: seq<PollInput>, input: PollInput, question: Question)
    ensures Count(question, Owed(encode, a, inputs, input)) ==
      if IsDue(question, encode, a, inputs, input) then 1 else 0
  {
    var v := H.SeenAt(H.LogAfterPolls([], inputs), input);
    if Served(v).Some? {
      CountInAll(question, Served(v).value, v, BeatDue(inputs), ServedAfter(inputs), MarksBefore(inputs, input),
                 SetupDone(inputs + [input]), ReadsBefore(encode, a, inputs, input), LinkedSince(inputs + [input]),
                 W.AllAttempts(encode, a, inputs), input.now);
    }
  }

  lemma CountInAll(question: Question, s: nat, v: Vehicle, beatDue: Time, previous: Option<nat>, marks: seq<S.Mark>,
                   done: bool, asked: seq<Attempt>, since: Time, all: seq<Attempt>, now: Time)
    requires W.AreReads(asked)
    ensures Count(question, OwedInAll(s, v, beatDue, previous, marks, done, asked, since, all, now)) ==
      if done && (match question
        case Version => v.metadata.None? && now >= AskDue(Version, all)
        case Threshold => !v.thresholdKnown && now >= AskDue(Threshold, all)
        case Failsafe => now >= ReadDue(asked, since))
      then 1 else 0
  {
    var name, readDue := NextName(asked), ReadDue(asked, since);
    var versionDue, thresholdDue := AskDue(Version, all), AskDue(Threshold, all);
    OnlyQuestionsCount(question, s, now >= beatDue, IntervalOwed(s, previous, marks, now),
                       Questions(s, done, v, name, readDue, versionDue, thresholdDue, now));
    CountWhenDue(question, s, done, v, name, readDue, versionDue, thresholdDue, now);
  }

  /** All frames with one question are two seconds apart. */
  predicate Spread(question: Question, all: seq<Attempt>) {
    forall i, j :: 0 <= i < j < |all| && Asks(question, all[i].request) && Asks(question, all[j].request) ==>
      all[j].at >= all[i].at + 2 * SECOND
  }

  lemma {:induction false} AskDueIsLate(question: Question, all: seq<Attempt>, i: nat)
    requires Spread(question, all) && i < |all| && Asks(question, all[i].request)
    ensures AskDue(question, all) >= all[i].at + 2 * SECOND
    decreases |all|
  {
    var last := |all| - 1;
    if !Asks(question, all[last].request) {
      AskDueIsLate(question, all[..last], i);
    }
  }

  lemma {:induction false} CountTwo(question: Question, requests: seq<Request>, i: nat, j: nat)
    requires i < j < |requests| && Asks(question, requests[i]) && Asks(question, requests[j])
    ensures Count(question, requests) >= 2
  {
    CountBoth(question, requests[..j], requests[j..]);
    CountAny(question, requests[..j], i);
    CountAny(question, requests[j..], 0);
    assert requests == requests[..j] + requests[j..];
  }

  lemma {:induction false} CountAny(question: Question, requests: seq<Request>, i: nat)
    requires i < |requests| && Asks(question, requests[i])
    ensures Count(question, requests) >= 1
    decreases |requests|
  {
    if i < |requests| - 1 {
      CountAny(question, requests[..|requests| - 1], i);
    }
  }

  lemma SpreadOn(question: Question, all: seq<Attempt>, frames: seq<Attempt>, requests: seq<Request>, now: Time,
                 accepted: bool)
    requires Spread(question, all) && Stamped(frames, requests, now, accepted) && Count(question, requests) <= 1
    requires Count(question, requests) > 0 ==> now >= AskDue(question, all)
    ensures Spread(question, all + frames)
  {
    var more := all + frames;
    forall i, j | 0 <= i < j < |more| && Asks(question, more[i].request) && Asks(question, more[j].request)
      ensures more[j].at >= more[i].at + 2 * SECOND
    {
      if i < |all| <= j {
        CountAny(question, requests, j - |all|);
        AskDueIsLate(question, all, i);
      } else if |all| <= i {
        CountTwo(question, requests, i - |all|, j - |all|);
      }
    }
  }

  /** In every run the version, and the arming threshold, are asked for every two seconds at most. */
  lemma {:induction false} QuestionsAreSpread(encode: Encoder, start: Link, sinks: seq<Sink>, inputs: seq<PollInput>,
                                              question: Question)
    requires question != Failsafe
    ensures Spread(question, W.AllAttempts(encode, Initial(start, sinks), inputs))
    decreases |inputs|
  {
    if inputs != [] {
      var earlier, last := H.CutLast(inputs);
      var initial := Initial(start, sinks);
      QuestionsAreSpread(encode, start, sinks, earlier, question);
      PollHandsOverOwed(encode, start, sinks, earlier, last);
      QuestionsWhenDue(encode, initial, earlier, last, question);
      W.OneMorePoll(encode, initial, earlier, last);
      SpreadOn(question, W.AllAttempts(encode, initial, earlier),
               W.PollAttempts(encode, Run(encode, initial, earlier), last), Owed(encode, initial, earlier, last),
               last.now, SeesAccepted(Polled(encode, Run(encode, initial, earlier), last)));
    }
  }
}
