/**
 The stream set-up told by what happened to it and when: commands sent, ACKs taken, and giving up. The
 marks of a set-up decide what every event does next, and on a clock that does not run backwards they
 keep the pauses between commands.
 */
module StreamSetupTiming {
  import opened Basics
  import opened MavlinkDecoder
  import T = TelemetryStreamConfigurator

  datatype Mark =
    | Sent(request: T.IntervalRequest, at: Time)
    | Postponed(at: Time)
    | Taken(at: Time)
    | Refused(result: nat, at: Time)
    | GaveUp(at: Time)

  // ----- what the marks say

  /** A command was sent and its answer is outstanding. */
  predicate Pending(marks: seq<Mark>) {
    marks != [] && (marks[|marks| - 1].Sent? || marks[|marks| - 1].Postponed?)
  }

  /** How many commands were accepted. */
  function Accepted(marks: seq<Mark>): nat {
    if marks == [] then 0
    else Accepted(marks[..|marks| - 1]) + if marks[|marks| - 1].Taken? then 1 else 0
  }

  /** How often the current command was sent. */
  function Tries(marks: seq<Mark>): nat {
    if marks == [] || marks[|marks| - 1].Taken? then 0
    else Tries(marks[..|marks| - 1]) + if marks[|marks| - 1].Sent? then 1 else 0
  }

  predicate Over(marks: seq<Mark>) {
    Accepted(marks) == 6 || (marks != [] && (marks[|marks| - 1].Refused? || marks[|marks| - 1].GaveUp?))
  }

  /** Nothing is outstanding, or what is has been for two seconds. */
  predicate Due(marks: seq<Mark>, now: Time) {
    !Pending(marks) || now >= marks[|marks| - 1].at + 2 * SECOND
  }

  /** An ACK of SET_MESSAGE_INTERVAL (command 511), from `vehicle`, to this companion (component 191) or to all. */
  predicate IsAnswer(ack: CommandAck, vehicle: nat) {
    ack.command == 511 && ack.sourceSystem == vehicle &&
    ack.targetSystem in {0, vehicle} && ack.targetComponent in {0, 191}
  }

  // ----- the marks of a run

  function AckMark(ack: CommandAck, at: Time): Mark {
    if ack.result == 0 then Taken(at) else if ack.result == 5 then Postponed(at) else Refused(ack.result, at)
  }

  /** What one event does to a set-up that turns from `before` into `after`, with the marks so far. */
  function MarkOf(before: T.Setup, after: T.Setup, marks: seq<Mark>, e: T.SetupEvent): seq<Mark> {
    match e
    case Update(connected, vehicle, now) =>
      var request := T.Updated(before, connected, vehicle, now).1;
      if request.Some? then [Sent(request.value, now)]
      else if before.phase == T.Configuring && after.phase == T.Failed then [GaveUp(now)]
      else []
    case Ack(ack, now) =>
      if before.vehicle.Some? && Pending(marks) && IsAnswer(ack, before.vehicle.value) then [AckMark(ack, now)] else []
  }

  function Marked(before: T.Setup, marks: seq<Mark>, e: T.SetupEvent): seq<Mark> {
    var after := T.Step(T.Trail(before, [], 0), e).setup;
    (if after.vehicle == before.vehicle then marks else []) + MarkOf(before, after, marks, e)
  }

  /** Everything that happened since the set-up last changed its vehicle. */
  function Marks(events: seq<T.SetupEvent>): seq<Mark> {
    if events == [] then []
    else
      var earlier := events[..|events| - 1];
      Marked(T.Run(T.START, earlier).setup, Marks(earlier), events[|events| - 1])
  }

  lemma MarksAppend(events: seq<T.SetupEvent>, e: T.SetupEvent)
    ensures Marks(events + [e]) == Marked(T.Run(T.START, events).setup, Marks(events), e)
  {
    assert (events + [e])[..|events|] == events;
  }

  // ----- the marks tell the state

  predicate Tells(s: T.Setup, marks: seq<Mark>) {
    T.Coherent(s) && s.completed == Accepted(marks) && s.attempt == Tries(marks) &&
    (s.vehicle.None? ==> marks == []) &&
    match s.phase
    case WaitingForVehicle => marks == []
    case Configuring =>
      !Over(marks) && (s.awaiting <==> Pending(marks)) &&
      (s.awaiting ==> s.deadline == marks[|marks| - 1].at + 2 * SECOND)
    case Active => Accepted(marks) == 6 && !Pending(marks)
    case Failed =>
      marks != [] && Accepted(marks) < 6 &&
      if s.failure.None? then marks[|marks| - 1].GaveUp?
      else marks[|marks| - 1].Refused? && marks[|marks| - 1].result == s.failure.value
  }

  lemma OneMark(marks: seq<Mark>, m: Mark)
    ensures Accepted(marks + [m]) == Accepted(marks) + if m.Taken? then 1 else 0
    ensures Tries(marks + [m]) == if m.Taken? then 0 else Tries(marks) + if m.Sent? then 1 else 0
    ensures (marks + [m])[|marks + [m]| - 1] == m && marks + [m] != []
  {
    assert (marks + [m])[..|marks|] == marks;
  }

  /** What an update does: the marks decide whether it sends, waits or gives up. */
  ghost predicate UpdateRule(before: T.Setup, marks: seq<Mark>, v: Option<nat>, now: Time,
                             after: T.Setup, request: Option<T.IntervalRequest>) {
    if v.None? then request == None && after.vehicle == None && after.phase == T.WaitingForVehicle
    else if before.vehicle != v then
      request == Some(T.IntervalRequest(v.value, 0, 0)) && after.vehicle == v && after.phase == T.Configuring
    else if Over(marks) || !Due(marks, now) then request == None && after == before
    else if Tries(marks) == 3 then
      request == None && after.phase == T.Failed && after.failure == None && after.vehicle == v
    else
      request == Some(T.IntervalRequest(v.value, Accepted(marks), Tries(marks))) &&
      after.vehicle == v && after.phase == T.Configuring
  }

  lemma UpdateFollows(before: T.Setup, marks: seq<Mark>, connected: bool, vehicle: Option<nat>, now: Time)
    requires Tells(before, marks)
    ensures var (after, request) := T.Updated(before, connected, vehicle, now);
      UpdateRule(before, marks, if connected then vehicle else None, now, after, request)
  {
  }

  lemma UpdateTells(before: T.Setup, marks: seq<Mark>, connected: bool, vehicle: Option<nat>, now: Time)
    requires Tells(before, marks)
    ensures var after := T.Updated(before, connected, vehicle, now).0;
      Tells(after, Marked(before, marks, T.Update(connected, vehicle, now)))
  {
    var (after, request) := T.Updated(before, connected, vehicle, now);
    var base := if after.vehicle == before.vehicle then marks else [];
    if request.Some? {
      OneMark(base, Sent(request.value, now));
    } else {
      OneMark(base, GaveUp(now));
      assert base + [] == base;
    }
  }

  lemma AckTells(before: T.Setup, marks: seq<Mark>, ack: CommandAck, now: Time)
    requires Tells(before, marks)
    ensures Tells(T.Acknowledged(before, ack, now), Marked(before, marks, T.Ack(ack, now)))
  {
    AnswersPending(before, marks, ack);
    if T.Answers(before, ack) {
      OneMark(marks, AckMark(ack, now));
      AnswerTells(before, marks, ack, now);
    } else {
      assert marks + [] == marks;
    }
  }

  /** An ACK answers the set-up exactly if a command is pending and it is one of its vehicle. */
  lemma AnswersPending(before: T.Setup, marks: seq<Mark>, ack: CommandAck)
    requires Tells(before, marks)
    ensures T.Answers(before, ack) <==>
      before.vehicle.Some? && Pending(marks) && IsAnswer(ack, before.vehicle.value)
  {
  }

  lemma AnswerTells(before: T.Setup, marks: seq<Mark>, ack: CommandAck, now: Time)
    requires Tells(before, marks) && T.Answers(before, ack)
    ensures Tells(T.Acknowledged(before, ack, now), marks + [AckMark(ack, now)])
  {
    OneMark(marks, AckMark(ack, now));
  }

  /** The state after every run of updates and ACKs is what its marks say. */
  lemma {:induction false} RunTells(events: seq<T.SetupEvent>)
    ensures Tells(T.Run(T.START, events).setup, Marks(events))
  {
    if events != [] {
      var earlier, e := events[..|events| - 1], events[|events| - 1];
      RunTells(earlier);
      match e
      case Update(connected, vehicle, now) =>
        UpdateTells(T.Run(T.START, earlier).setup, Marks(earlier), connected, vehicle, now);
      case Ack(ack, now) => AckTells(T.Run(T.START, earlier).setup, Marks(earlier), ack, now);
    }
  }

  /**
   What the next update does, after any run: a new vehicle is asked for the first stream at once; a set-up
   that is over, or whose outstanding command is not two seconds old, does nothing; otherwise it asks for
   the first stream not accepted yet, or gives up after three tries.
   */
  lemma NextUpdate(events: seq<T.SetupEvent>, connected: bool, vehicle: Option<nat>, now: Time)
    ensures var before := T.Run(T.START, events).setup;
            var (after, request) := T.Updated(before, connected, vehicle, now);
      after == T.Run(T.START, events + [T.Update(connected, vehicle, now)]).setup &&
      UpdateRule(before, Marks(events), if connected then vehicle else None, now, after, request)
  {
    RunTells(events);
    T.RunAppend(T.START, events, T.Update(connected, vehicle, now));
    UpdateFollows(T.Run(T.START, events).setup, Marks(events), connected, vehicle, now);
  }

  ghost predicate AckRule(before: T.Setup, marks: seq<Mark>, ack: CommandAck, after: T.Setup) {
    if before.vehicle.None? || !Pending(marks) || !IsAnswer(ack, before.vehicle.value) then after == before
    else if ack.result == 5 then after.(deadline := before.deadline) == before
    else if ack.result == 0 then
      after.vehicle == before.vehicle && after.completed == before.completed + 1 && after.failure == None &&
      after.phase == if before.completed + 1 == 6 then T.Active else T.Configuring
    else after.vehicle == before.vehicle && after.phase == T.Failed && after.failure == Some(ack.result)
  }

  /**
   What the next ACK does, after any run: only one that answers an outstanding command counts. It completes
   the command, postpones its deadline, or fails the set-up with its result.
   */
  lemma NextAck(events: seq<T.SetupEvent>, ack: CommandAck, now: Time)
    ensures AckRule(T.Run(T.START, events).setup, Marks(events), ack,
                    T.Run(T.START, events + [T.Ack(ack, now)]).setup)
  {
    RunTells(events);
    T.RunAppend(T.START, events, T.Ack(ack, now));
    AckFollows(T.Run(T.START, events).setup, Marks(events), ack, now);
  }

  lemma AckFollows(before: T.Setup, marks: seq<Mark>, ack: CommandAck, now: Time)
    requires Tells(before, marks)
    ensures AckRule(before, marks, ack, T.Acknowledged(before, ack, now))
  {
  }

  // ----- pauses

  predicate IsTry(m: Mark) {
    m.Sent? || m.GaveUp?
  }

  /** After a command or a postponement, the next try or giving up comes two seconds later at the earliest. */
  predicate Paced(marks: seq<Mark>) {
    forall k :: 0 < k < |marks| && IsTry(marks[k]) && !marks[k - 1].Taken? ==>
      marks[k].at >= marks[k - 1].at + 2 * SECOND
  }

  /** A command is for the first stream not accepted yet, and counts its tries; giving up takes three of them. */
  predicate Numbered(marks: seq<Mark>) {
    forall k :: 0 <= k < |marks| ==>
      (marks[k].Sent? ==>
         marks[k].request.stream == Accepted(marks[..k]) && marks[k].request.confirmation == Tries(marks[..k]) < 3) &&
      (marks[k].GaveUp? ==> Tries(marks[..k]) == 3)
  }

  lemma UpdateKeepsPace(before: T.Setup, marks: seq<Mark>, connected: bool, vehicle: Option<nat>, now: Time)
    requires Tells(before, marks) && Paced(marks)
    ensures Paced(Marked(before, marks, T.Update(connected, vehicle, now)))
  {
    UpdateFollows(before, marks, connected, vehicle, now);
  }

  lemma UpdateKeepsNumbers(before: T.Setup, marks: seq<Mark>, connected: bool, vehicle: Option<nat>, now: Time)
    requires Tells(before, marks) && Numbered(marks)
    ensures Numbered(Marked(before, marks, T.Update(connected, vehicle, now)))
  {
    UpdateFollows(before, marks, connected, vehicle, now);
    var after := T.Updated(before, connected, vehicle, now).0;
    var base := if after.vehicle == before.vehicle then marks else [];
    var all := Marked(before, marks, T.Update(connected, vehicle, now));
    assert forall k :: 0 <= k <= |base| ==> all[..k] == base[..k];
    assert base[..|base|] == base;
  }

  lemma AckKeepsNumbers(before: T.Setup, marks: seq<Mark>, ack: CommandAck, now: Time)
    requires Paced(marks) && Numbered(marks)
    ensures var all := Marked(before, marks, T.Ack(ack, now)); Paced(all) && Numbered(all)
  {
    assert marks + [] == marks;
    PlainMarkKeepsNumbers(marks, AckMark(ack, now));
  }

  lemma PlainMarkKeepsNumbers(marks: seq<Mark>, m: Mark)
    requires Paced(marks) && Numbered(marks) && !IsTry(m)
    ensures Paced(marks + [m]) && Numbered(marks + [m])
  {
    assert forall k :: 0 <= k < |marks| ==> (marks + [m])[..k] == marks[..k];
  }

  /** Every run keeps pace and numbers its commands. */
  lemma {:induction false} RunKeepsPace(events: seq<T.SetupEvent>)
    ensures Paced(Marks(events)) && Numbered(Marks(events))
  {
    if events != [] {
      var earlier, e := events[..|events| - 1], events[|events| - 1];
      RunKeepsPace(earlier);
      RunTells(earlier);
      match e
      case Update(connected, vehicle, now) =>
        UpdateKeepsPace(T.Run(T.START, earlier).setup, Marks(earlier), connected, vehicle, now);
        UpdateKeepsNumbers(T.Run(T.START, earlier).setup, Marks(earlier), connected, vehicle, now);
      case Ack(ack, now) => AckKeepsNumbers(T.Run(T.START, earlier).setup, Marks(earlier), ack, now);
    }
  }

  /** The clock does not run backwards. */
  predicate OnClock(events: seq<T.SetupEvent>) {
    forall i, j :: 0 <= i < j < |events| ==> events[i].at <= events[j].at
  }

  predicate InTime(marks: seq<Mark>) {
    forall i, j :: 0 <= i < j < |marks| ==> marks[i].at <= marks[j].at
  }

  predicate EndsBy(marks: seq<Mark>, time: Time) {
    forall k :: 0 <= k < |marks| ==> marks[k].at <= time
  }

  lemma MarkedInTime(before: T.Setup, marks: seq<Mark>, e: T.SetupEvent)
    requires InTime(marks) && EndsBy(marks, e.at)
    ensures InTime(Marked(before, marks, e)) && EndsBy(Marked(before, marks, e), e.at)
  {
  }

  lemma {:induction false} MarksAreInTime(events: seq<T.SetupEvent>)
    requires OnClock(events)
    ensures InTime(Marks(events))
    ensures events != [] ==> EndsBy(Marks(events), events[|events| - 1].at)
  {
    if events != [] {
      var earlier, e := events[..|events| - 1], events[|events| - 1];
      EarlierOnClock(events);
      MarksAreInTime(earlier);
      MarkedInTime(T.Run(T.START, earlier).setup, Marks(earlier), e);
    }
  }

  lemma EarlierOnClock(events: seq<T.SetupEvent>)
    requires OnClock(events) && events != []
    ensures OnClock(events[..|events| - 1])
    ensures |events| > 1 ==> events[|events| - 2].at <= events[|events| - 1].at
  {
  }

  lemma {:induction false} AcceptedGrows(marks: seq<Mark>, i: nat, j: nat)
    requires i <= j <= |marks|
    ensures Accepted(marks[..i]) <= Accepted(marks[..j])
    decreases j
  {
    if i < j {
      AcceptedGrows(marks, i, j - 1);
      OneMark(marks[..j - 1], marks[j - 1]);
      assert marks[..j] == marks[..j - 1] + [marks[j - 1]];
    }
  }

  /** Two commands for one stream are at least two seconds apart, in every run on a clock that runs forward. */
  lemma CommandsArePaced(events: seq<T.SetupEvent>, i: nat, j: nat)
    requires OnClock(events) && i < j < |Marks(events)|
    requires Marks(events)[i].Sent? && Marks(events)[j].Sent?
    requires Marks(events)[i].request.stream == Marks(events)[j].request.stream
    ensures Marks(events)[j].at >= Marks(events)[i].at + 2 * SECOND
  {
    RunKeepsPace(events);
    MarksAreInTime(events);
    NothingTakenBetween(Marks(events), i, j);
  }

  lemma NothingTakenBetween(marks: seq<Mark>, i: nat, j: nat)
    requires Numbered(marks) && i < j < |marks| && marks[i].Sent? && marks[j].Sent?
    requires marks[i].request.stream == marks[j].request.stream
    ensures !marks[j - 1].Taken?
  {
    AcceptedGrows(marks, i, j - 1);
    OneMark(marks[..j - 1], marks[j - 1]);
    assert marks[..j] == marks[..j - 1] + [marks[j - 1]];
  }

  /** A set-up gives up two seconds after everything else in it, its third try and any postponement included. */
  lemma GivingUpIsLate(events: seq<T.SetupEvent>, k: nat)
    requires OnClock(events) && k < |Marks(events)| && Marks(events)[k].GaveUp?
    ensures Tries(Marks(events)[..k]) == 3
    ensures forall i :: 0 <= i < k ==> Marks(events)[k].at >= Marks(events)[i].at + 2 * SECOND
  {
    RunKeepsPace(events);
    MarksAreInTime(events);
    var marks := Marks(events);
    assert k > 0 && !marks[k - 1].Taken? by {
      assert marks[..k] == [] || marks[..k][k - 1] == marks[k - 1];
    }
  }
}
