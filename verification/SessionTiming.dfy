/** The pauses between the stream commands of a session, in every run of polls. */
module SessionTiming {
  import opened Basics
  import opened CompanionModel
  import opened StreamSetupTiming
  import D = MavlinkDecoder
  import H = SessionHistory
  import L = VehicleLog
  import P = SessionProtocol
  import Q = PollFrames
  import T = TelemetryStreamConfigurator
  import W = SessionWire

  // ----- the stream commands of a session are those of its set-up

  /** The commands among the marks of a set-up. */
  function SentMarks(marks: seq<Mark>): seq<Mark> {
    if marks == [] then []
    else SentMarks(marks[..|marks| - 1]) + if marks[|marks| - 1].Sent? then [marks[|marks| - 1]] else []
  }

  /** The stream commands among the frames of a session, with their times. */
  function IntervalMarks(attempts: seq<Attempt>): seq<Mark> {
    if attempts == [] then []
    else IntervalMarks(attempts[..|attempts| - 1]) + IntervalMark(attempts[|attempts| - 1])
  }

  function IntervalMark(x: Attempt): seq<Mark> {
    if x.request.SetInterval? then [Sent(x.request.interval, x.at)] else []
  }

  lemma {:induction false} IntervalMarksOn(attempts: seq<Attempt>, more: seq<Attempt>)
    ensures IntervalMarks(attempts + more) == IntervalMarks(attempts) + IntervalMarks(more)
    decreases |more|
  {
    if more == [] {
      assert attempts + more == attempts;
    } else {
      IntervalMarksOn(attempts, more[..|more| - 1]);
      assert (attempts + more)[..|attempts + more| - 1] == attempts + more[..|more| - 1];
      H.Regroup(IntervalMarks(attempts), IntervalMarks(more[..|more| - 1]), IntervalMark(more[|more| - 1]));
    }
  }

  /** The commands among requests made at `now`. */
  function CommandsAt(requests: seq<Request>, now: Time): seq<Mark> {
    if requests == [] then []
    else
      var last := requests[|requests| - 1];
      CommandsAt(requests[..|requests| - 1], now) + if last.SetInterval? then [Sent(last.interval, now)] else []
  }

  lemma {:induction false} StampedCommands(frames: seq<Attempt>, requests: seq<Request>, now: Time, accepted: bool)
    requires Q.Stamped(frames, requests, now, accepted)
    ensures IntervalMarks(frames) == CommandsAt(requests, now)
    decreases |frames|
  {
    if frames != [] {
      StampedCommands(frames[..|frames| - 1], requests[..|requests| - 1], now, accepted);
    }
  }

  lemma {:induction false} CommandsOn(first: seq<Request>, second: seq<Request>, now: Time)
    ensures CommandsAt(first + second, now) == CommandsAt(first, now) + CommandsAt(second, now)
    decreases |second|
  {
    if second == [] {
      assert first + second == first;
    } else {
      var last := second[|second| - 1];
      CommandsOn(first, second[..|second| - 1], now);
      assert (first + second)[..|first + second| - 1] == first + second[..|second| - 1];
      H.Regroup(CommandsAt(first, now), CommandsAt(second[..|second| - 1], now),
                if last.SetInterval? then [Sent(last.interval, now)] else []);
    }
  }

  lemma {:induction false} NoCommands(requests: seq<Request>, now: Time)
    requires forall i :: 0 <= i < |requests| ==> !requests[i].SetInterval?
    ensures CommandsAt(requests, now) == []
    decreases |requests|
  {
    if requests != [] {
      NoCommands(requests[..|requests| - 1], now);
    }
  }

  /** Of everything a poll owes, the stream command is the only one. */
  lemma CommandOwed(s: nat, beat: bool, intervals: seq<Request>, done: bool, v: Vehicle, name: string,
                    readDue: Time, versionDue: Time, thresholdDue: Time, now: Time)
    ensures CommandsAt(
        Q.When(beat, CompanionHeartbeat(s)) + intervals +
        Q.Questions(s, done, v, name, readDue, versionDue, thresholdDue, now), now) == CommandsAt(intervals, now)
  {
    var first, questions := Q.When(beat, CompanionHeartbeat(s)),
      Q.Questions(s, done, v, name, readDue, versionDue, thresholdDue, now);
    CommandsOn(first + intervals, questions, now);
    CommandsOn(first, intervals, now);
    NoCommands(first, now);
    QuestionsAreNoCommands(s, done, v, name, readDue, versionDue, thresholdDue, now);
  }

  lemma QuestionsAreNoCommands(s: nat, done: bool, v: Vehicle, name: string, readDue: Time, versionDue: Time,
                               thresholdDue: Time, now: Time)
    ensures CommandsAt(Q.Questions(s, done, v, name, readDue, versionDue, thresholdDue, now), now) == []
  {
    NoCommands(Q.Questions(s, done, v, name, readDue, versionDue, thresholdDue, now), now);
  }

  lemma {:induction false} AcksSendNothing(events: seq<T.SetupEvent>, acks: seq<T.SetupEvent>)
    requires forall i :: 0 <= i < |acks| ==> acks[i].Ack?
    ensures SentMarks(Marks(events + acks)) == SentMarks(Marks(events))
    decreases |acks|
  {
    if acks == [] {
      assert events + acks == events;
    } else {
      var front, last := H.CutLast(acks);
      assert forall i :: 0 <= i < |front| ==> front[i] == acks[i];
      assert acks[|front|] == last;
      AcksSendNothing(events, front);
      OneAckSendsNothing(events + front, last);
      H.Regroup(events, front, [last]);
    }
  }

  lemma SentAppend(marks: seq<Mark>, m: Mark)
    ensures SentMarks(marks + [m]) == SentMarks(marks) + if m.Sent? then [m] else []
  {
    assert (marks + [m])[..|marks|] == marks;
  }

  lemma AckSendsNothing(before: T.Setup, marks: seq<Mark>, e: T.SetupEvent)
    requires e.Ack?
    ensures SentMarks(Marked(before, marks, e)) == SentMarks(marks)
  {
    SentAppend(marks, AckMark(e.ack, e.at));
    assert marks + [] == marks;
  }

  lemma OneAckSendsNothing(events: seq<T.SetupEvent>, e: T.SetupEvent)
    requires e.Ack?
    ensures SentMarks(Marks(events + [e])) == SentMarks(Marks(events))
  {
    MarksAppend(events, e);
    AckSendsNothing(T.Run(T.START, events).setup, Marks(events), e);
  }

  lemma {:induction false} AcksOnly(log: L.Log, messages: seq<D.Message>, now: Time)
    ensures forall i :: 0 <= i < |H.AckEvents(log, messages, now)| ==> H.AckEvents(log, messages, now)[i].Ack?
  {
    if messages != [] {
      AcksOnly(log, messages[..|messages| - 1], now);
    }
  }

  lemma OneCommand(r: Request, now: Time)
    ensures CommandsAt([r], now) == if r.SetInterval? then [Sent(r.interval, now)] else []
  {
    assert [r][..0] == [];
  }

  /** The command an update owes is the one it sends. */
  lemma OwedIsSent(before: T.Setup, marks: seq<Mark>, s: nat, now: Time)
    requires Tells(before, marks)
    ensures var request := T.Updated(before, true, Some(s), now).1;
      CommandsAt(Q.IntervalOwed(s, before.vehicle, marks, now), now) ==
        if request.Some? then [Sent(request.value, now)] else []
  {
    Q.IntervalIsOwed(before, marks, s, now);
    var request := T.Updated(before, true, Some(s), now).1;
    if request.Some? {
      OneCommand(SetInterval(request.value), now);
    }
  }

  lemma UpdateMarks(before: T.Setup, marks: seq<Mark>, connected: bool, vehicle: Option<nat>, now: Time)
    ensures var (after, request) := T.Updated(before, connected, vehicle, now);
      SentMarks(Marked(before, marks, T.Update(connected, vehicle, now))) ==
        (if after.vehicle == before.vehicle then SentMarks(marks) else []) +
        if request.Some? then [Sent(request.value, now)] else []
  {
    var (after, request) := T.Updated(before, connected, vehicle, now);
    var base := if after.vehicle == before.vehicle then marks else [];
    if request.Some? {
      SentAppend(base, Sent(request.value, now));
    } else {
      SentAppend(base, GaveUp(now));
      assert base + [] == base;
    }
  }

  lemma UpdateSends(before: T.Setup, marks: seq<Mark>, connected: bool, vehicle: Option<nat>, now: Time)
    requires Tells(before, marks)
    ensures var served := if connected then vehicle else None;
      SentMarks(Marked(before, marks, T.Update(connected, vehicle, now))) ==
        (if served == before.vehicle then SentMarks(marks) else []) +
        if served.None? then []
        else CommandsAt(Q.IntervalOwed(served.value, before.vehicle, marks, now), now)
  {
    UpdateMarks(before, marks, connected, vehicle, now);
    var served := if connected then vehicle else None;
    P.UpdateStaysCoherent(before, connected, vehicle, now);
    if served.Some? {
      OwedIsSent(before, marks, served.value, now);
    }
  }

  lemma {:induction false} MessagesHandOverNothing(a: App, messages: seq<D.Message>, now: Time)
    ensures Ingested(a, messages, now).attempts == a.attempts
  {
    if messages != [] {
      MessagesHandOverNothing(a, messages[..|messages| - 1], now);
    }
  }

  lemma PollAdds(encode: Encoder, a: App, input: PollInput)
    requires T.Coherent(a.setup)
    ensures var ingested := Ingested(a, input.messages, input.now);
      Polled(encode, a, input).attempts ==
        SessionEntered(ingested, VehicleAt(ingested.log, input.now)).attempts + W.PollAttempts(encode, a, input)
  {
    P.PollServesOneVehicle(encode, a, input);
  }

  lemma EnteringKeeps(a: App, v: Vehicle)
    ensures SessionEntered(a, v).attempts == if Served(v) == a.setup.vehicle then a.attempts else []
  {
  }

  /** The frames of the session after one more poll: all those of the vehicle served, or just the new ones. */
  lemma OneMorePollAdds(encode: Encoder, start: Link, sinks: seq<Sink>, inputs: seq<PollInput>, input: PollInput)
    ensures var a := Run(encode, Initial(start, sinks), inputs);
      Polled(encode, a, input).attempts ==
        (if Q.ServedAfter(inputs + [input]) == Q.ServedAfter(inputs) then a.attempts else []) +
        W.PollAttempts(encode, a, input)
  {
    var a := Run(encode, Initial(start, sinks), inputs);
    P.RunStaysSound(encode, start, sinks, inputs);
    PollAdds(encode, a, input);
    MessagesHandOverNothing(a, input.messages, input.now);
    Q.RunStaysPunctual(encode, start, sinks, inputs);
    Q.IngestedStands(encode, start, sinks, inputs, input);
    Q.OneMoreInput(inputs, input);
    EnteringKeeps(Ingested(a, input.messages, input.now), H.SeenAt(H.LogAfterPolls([], inputs), input));
  }

  /** The commands that poll `input` owes: that of the stream set-up. */
  function CommandsOfPoll(inputs: seq<PollInput>, input: PollInput): seq<Mark> {
    var served := Q.ServedAfter(inputs + [input]);
    if served.None? then []
    else CommandsAt(Q.IntervalOwed(served.value, Q.ServedAfter(inputs), Q.MarksBefore(inputs, input), input.now),
                    input.now)
  }

  lemma PollCommands(encode: Encoder, start: Link, sinks: seq<Sink>, inputs: seq<PollInput>, input: PollInput)
    ensures IntervalMarks(W.PollAttempts(encode, Run(encode, Initial(start, sinks), inputs), input)) ==
      CommandsOfPoll(inputs, input)
  {
    var initial := Initial(start, sinks);
    var a := Run(encode, initial, inputs);
    Q.PollHandsOverOwed(encode, start, sinks, inputs, input);
    Q.OneMoreInput(inputs, input);
    var requests := Q.Owed(encode, initial, inputs, input);
    StampedCommands(W.PollAttempts(encode, a, input), requests, input.now, Q.SeesAccepted(Polled(encode, a, input)));
    var v := H.SeenAt(H.LogAfterPolls([], inputs), input);
    if Served(v).Some? {
      var s, asked := Served(v).value, Q.ReadsBefore(encode, initial, inputs, input);
      var all := W.AllAttempts(encode, initial, inputs);
      CommandOwed(s, input.now >= Q.BeatDue(inputs),
                  Q.IntervalOwed(s, Q.ServedAfter(inputs), Q.MarksBefore(inputs, input), input.now),
                  Q.SetupDone(inputs + [input]), v, Q.NextName(asked),
                  Q.ReadDue(asked, Q.LinkedSince(inputs + [input])), Q.AskDue(Q.Version, all),
                  Q.AskDue(Q.Threshold, all), input.now);
    }
  }

  lemma PollMarks(encode: Encoder, start: Link, sinks: seq<Sink>, inputs: seq<PollInput>, input: PollInput)
    ensures SentMarks(Marks(H.SetupEvents([], inputs + [input]))) ==
      (if Q.ServedAfter(inputs + [input]) == Q.ServedAfter(inputs)
       then SentMarks(Marks(H.SetupEvents([], inputs))) else []) +
      CommandsOfPoll(inputs, input)
  {
    var log := H.LogAfterPolls([], inputs);
    var events, acks := H.SetupEvents([], inputs), H.AckEvents(log, input.messages, input.now);
    var v := H.SeenAt(log, input);
    H.SetupEventsStep([], inputs, input);
    Q.RunStaysPunctual(encode, start, sinks, inputs);
    Q.IngestedStands(encode, start, sinks, inputs, input);
    Q.OneMoreInput(inputs, input);
    AcksOnly(log, input.messages, input.now);
    AcksSendNothing(events, acks);
    MarksAppend(events + acks, H.UpdateEvent(v, input.now));
    RunTells(events + acks);
    UpdateSends(T.Run(T.START, events + acks).setup, Marks(events + acks), v.connected, v.systemId, input.now);
  }

  /** After every run, the stream commands among the frames of the session are those sent by its set-up. */
  lemma {:induction false} FramesAreMarks(encode: Encoder, start: Link, sinks: seq<Sink>, inputs: seq<PollInput>)
    ensures IntervalMarks(Run(encode, Initial(start, sinks), inputs).attempts) ==
      SentMarks(Marks(H.SetupEvents([], inputs)))
    decreases |inputs|
  {
    if inputs != [] {
      var earlier, last := H.CutLast(inputs);
      var initial := Initial(start, sinks);
      FramesAreMarks(encode, start, sinks, earlier);
      W.OneMorePoll(encode, initial, earlier, last);
      OneMorePollAdds(encode, start, sinks, earlier, last);
      PollCommands(encode, start, sinks, earlier, last);
      PollMarks(encode, start, sinks, earlier, last);
      IntervalMarksOn(if Q.ServedAfter(earlier + [last]) == Q.ServedAfter(earlier)
                      then Run(encode, initial, earlier).attempts else [],
                      W.PollAttempts(encode, Run(encode, initial, earlier), last));
    }
  }

  // ----- so they keep the pauses

  /** The clock does not run backwards from poll to poll. */
  predicate PollsOnClock(inputs: seq<PollInput>) {
    forall i, j :: 0 <= i < j < |inputs| ==> inputs[i].now <= inputs[j].now
  }

  predicate AllBy(events: seq<T.SetupEvent>, time: Time) {
    forall i :: 0 <= i < |events| ==> events[i].at <= time
  }

  lemma ClockOn(events: seq<T.SetupEvent>, more: seq<T.SetupEvent>, now: Time)
    requires OnClock(events) && AllBy(events, now) && forall i :: 0 <= i < |more| ==> more[i].at == now
    ensures OnClock(events + more) && AllBy(events + more, now)
  {
  }

  lemma {:induction false} EventsOnClock(inputs: seq<PollInput>)
    requires PollsOnClock(inputs)
    ensures OnClock(H.SetupEvents([], inputs))
    ensures inputs != [] ==> AllBy(H.SetupEvents([], inputs), inputs[|inputs| - 1].now)
    decreases |inputs|
  {
    if inputs != [] {
      var earlier, last := inputs[..|inputs| - 1], inputs[|inputs| - 1];
      EventsOnClock(earlier);
      var log := H.LogAfterPolls([], earlier);
      H.AcksHappenNow(log, last.messages, last.now);
      assert |earlier| > 0 ==> earlier[|earlier| - 1].now <= last.now;
      ClockOn(H.SetupEvents([], earlier), H.AckEvents(log, last.messages, last.now), last.now);
      ClockOn(H.SetupEvents([], earlier) + H.AckEvents(log, last.messages, last.now),
              [H.UpdateEvent(H.SeenAt(log, last), last.now)], last.now);
    }
  }

  predicate SameStream(x: Mark, y: Mark) {
    x.Sent? && y.Sent? && x.request.stream == y.request.stream
  }

  /** Commands for one stream are two seconds apart. */
  predicate PacedCommands(marks: seq<Mark>) {
    forall i, j :: 0 <= i < j < |marks| && SameStream(marks[i], marks[j]) ==>
      marks[j].at >= marks[i].at + 2 * SECOND
  }

  lemma {:induction false} SentMarksAreMarks(marks: seq<Mark>, m: Mark)
    requires m in SentMarks(marks)
    ensures m in marks
    decreases |marks|
  {
    if m in SentMarks(marks[..|marks| - 1]) {
      SentMarksAreMarks(marks[..|marks| - 1], m);
    }
  }

  lemma {:induction false} SentMarksArePaced(marks: seq<Mark>)
    requires PacedCommands(marks)
    ensures PacedCommands(SentMarks(marks))
    decreases |marks|
  {
    if marks != [] {
      var front, last := marks[..|marks| - 1], marks[|marks| - 1];
      SentMarksArePaced(front);
      forall i | 0 <= i < |SentMarks(front)| && SameStream(SentMarks(front)[i], last)
        ensures last.at >= SentMarks(front)[i].at + 2 * SECOND
      {
        SentMarksAreMarks(front, SentMarks(front)[i]);
        var k :| 0 <= k < |front| && front[k] == SentMarks(front)[i];
        assert marks[k] == front[k];
      }
    }
  }

  lemma {:induction false} IntervalIsMark(attempts: seq<Attempt>, i: nat)
    requires i < |attempts| && attempts[i].request.SetInterval?
    ensures Sent(attempts[i].request.interval, attempts[i].at) in IntervalMarks(attempts)
    decreases |attempts|
  {
    if i < |attempts| - 1 {
      IntervalIsMark(attempts[..|attempts| - 1], i);
    }
  }

  lemma {:induction false} PacedInAttempts(attempts: seq<Attempt>, i: nat, j: nat)
    requires PacedCommands(IntervalMarks(attempts)) && i < j < |attempts|
    requires attempts[i].request.SetInterval? && attempts[j].request.SetInterval?
    requires attempts[i].request.interval.stream == attempts[j].request.interval.stream
    ensures attempts[j].at >= attempts[i].at + 2 * SECOND
    decreases |attempts|
  {
    var front, last := attempts[..|attempts| - 1], |attempts| - 1;
    var marks := IntervalMarks(front);
    assert forall k :: 0 <= k < |marks| ==> IntervalMarks(attempts)[k] == marks[k];
    if j < last {
      PacedInAttempts(front, i, j);
    } else {
      IntervalIsMark(front, i);
      var k :| 0 <= k < |marks| && marks[k] == Sent(front[i].request.interval, front[i].at);
      assert IntervalMarks(attempts)[|marks|] == Sent(attempts[last].request.interval, attempts[last].at);
      assert SameStream(IntervalMarks(attempts)[k], IntervalMarks(attempts)[|marks|]);
    }
  }

  /**
   In every run of polls on a clock that does not run backwards, two commands for one stream in one session
   are at least two seconds apart.
   */
  lemma SessionIsPaced(encode: Encoder, start: Link, sinks: seq<Sink>, inputs: seq<PollInput>, i: nat, j: nat)
    requires PollsOnClock(inputs)
    requires var frames := Run(encode, Initial(start, sinks), inputs).attempts;
      i < j < |frames| && frames[i].request.SetInterval? && frames[j].request.SetInterval? &&
      frames[i].request.interval.stream == frames[j].request.interval.stream
    ensures var frames := Run(encode, Initial(start, sinks), inputs).attempts;
      frames[j].at >= frames[i].at + 2 * SECOND
  {
    FramesAreMarks(encode, start, sinks, inputs);
    EventsOnClock(inputs);
    var events := H.SetupEvents([], inputs);
    forall i, j | 0 <= i < j < |Marks(events)| && SameStream(Marks(events)[i], Marks(events)[j])
      ensures Marks(events)[j].at >= Marks(events)[i].at + 2 * SECOND
    {
      CommandsArePaced(events, i, j);
    }
    SentMarksArePaced(Marks(events));
    PacedInAttempts(Run(encode, Initial(start, sinks), inputs).attempts, i, j);
  }
}
