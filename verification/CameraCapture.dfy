/**
 A camera source hands frames over through a one-slot mailbox; a monitor empties it and infers
 losses from gaps in the sequence numbers. Every lock-protected method is one step, and steps of
 the worker and of the consumer interleave in any order.
 */
module CameraCapture {
  import opened Basics

  datatype Phase = Starting | Streaming | Reconnecting | Stopped | Failed

  type Image = seq<bv8>

  datatype Frame = Frame(sequence: nat, capturedAt: Option<int>, image: Image)

  /** `discarded` is history: the frames a restart threw away. */
  datatype Source = Source(
    latest: Option<Frame>, nextSequence: nat, produced: nat, overwritten: nat, restarts: nat,
    phase: Phase, error: string, discarded: nat)

  const NEW_SOURCE := Source(None, 0, 0, 0, 0, Starting, "", 0)

  function Pending(s: Source): nat {
    if s.latest.Some? then 1 else 0
  }

  function Published(s: Source, capturedAt: Option<int>, image: Image): Source {
    s.(nextSequence := s.nextSequence + 1,
       latest := Some(Frame(s.nextSequence + 1, capturedAt, image)),
       overwritten := s.overwritten + Pending(s),
       produced := s.produced + 1,
       phase := Streaming,
       error := "")
  }

  /** Both a new attempt and a reconnect empty the mailbox. */
  function Emptied(s: Source): Source {
    s.(latest := None, discarded := s.discarded + Pending(s))
  }

  function FailedWith(s: Source, error: string): Source {
    s.(phase := Failed, error := error)
  }

  function Reconnected(s: Source, error: string): Source {
    Emptied(s).(phase := Reconnecting, error := error, restarts := s.restarts + 1)
  }

  /** `first` is history: the first sequence number received. */
  datatype Monitor = Monitor(last: Option<nat>, received: nat, dropped: nat, stamped: nat, first: nat)

  const NEW_MONITOR := Monitor(None, 0, 0, 0, 0)

  function Noted(m: Monitor, f: Frame): Monitor {
    Monitor(
      Some(f.sequence),
      m.received + 1,
      m.dropped + (if m.last.Some? && f.sequence > m.last.value + 1 then f.sequence - m.last.value - 1 else 0),
      m.stamped + (if f.capturedAt.Some? then 1 else 0),
      if m.last.None? then f.sequence else m.first)
  }

  function Reported(source: Source, m: Monitor): nat {
    if m.dropped > source.overwritten then m.dropped else source.overwritten
  }

  // ----- interleavings

  datatype Capture = Capture(source: Source, monitor: Monitor)

  datatype Event =
    | Publish(capturedAt: Option<int>, image: Image)
    | PollMonitor
    | PrepareAttempt
    | Fail(error: string)
    | Reconnect(error: string)
    | Stop

  function Step(c: Capture, e: Event): Capture {
    match e
    case Publish(capturedAt, image) => c.(source := Published(c.source, capturedAt, image))
    case PollMonitor =>
      if c.source.latest.None? then c
      else Capture(c.source.(latest := None), Noted(c.monitor, c.source.latest.value))
    case PrepareAttempt => c.(source := Emptied(c.source))
    case Fail(error) => c.(source := FailedWith(c.source, error))
    case Reconnect(error) => c.(source := Reconnected(c.source, error))
    case Stop => c.(source := c.source.(phase := Stopped))
  }

  function Run(events: seq<Event>): Capture {
    if events == [] then Capture(NEW_SOURCE, NEW_MONITOR)
    else Step(Run(events[..|events| - 1]), events[|events| - 1])
  }

  /** Where every produced frame went, and what the gaps account for. */
  predicate Balanced(c: Capture) {
    var s, m := c.source, c.monitor;
    && s.produced == s.nextSequence == m.received + s.overwritten + s.discarded + Pending(s)
    && (s.latest.Some? ==> s.latest.value.sequence == s.produced)
    && (m.last.None? <==> m.received == 0)
    && (m.last.None? ==> m.dropped == 0)
    && (m.last.Some? ==>
          1 <= m.first <= m.last.value <= s.produced - Pending(s) &&
            m.last.value == m.first - 1 + m.received + m.dropped)
  }

  /**
   Conservation under every interleaving: produced = received + overwritten + discarded + pending,
   and the last sequence number is the first less one, plus the received frames, plus the gaps.
   */
  lemma {:induction false} RunBalances(events: seq<Event>)
    ensures Balanced(Run(events))
  {
    if events != [] {
      RunBalances(events[..|events| - 1]);
    }
  }

  /** The frames the monitor took, in order. */
  function Received(events: seq<Event>): seq<Frame> {
    if events == [] then []
    else
      var before := Run(events[..|events| - 1]).source.latest;
      Received(events[..|events| - 1]) +
      if events[|events| - 1].PollMonitor? && before.Some? then [before.value] else []
  }

  function StampedAmong(frames: seq<Frame>): nat {
    if frames == [] then 0
    else StampedAmong(frames[..|frames| - 1]) + if frames[|frames| - 1].capturedAt.Some? then 1 else 0
  }

  predicate Rising(frames: seq<Frame>) {
    forall i, j :: 0 <= i < j < |frames| ==> frames[i].sequence < frames[j].sequence
  }

  /** The monitor has counted the frames it took, and those with a capture timestamp; they came in rising order. */
  predicate Counted(m: Monitor, frames: seq<Frame>) {
    m.received == |frames| && m.stamped == StampedAmong(frames) && Rising(frames) &&
    m.last == if frames == [] then None else Some(frames[|frames| - 1].sequence)
  }

  lemma NotedIsCounted(m: Monitor, frames: seq<Frame>, f: Frame)
    requires Counted(m, frames) && (m.last.Some? ==> f.sequence > m.last.value)
    ensures Counted(Noted(m, f), frames + [f])
  {
    assert (frames + [f])[..|frames|] == frames;
  }

  lemma StepIsCounted(c: Capture, e: Event, frames: seq<Frame>)
    requires Balanced(c) && Counted(c.monitor, frames)
    ensures Counted(Step(c, e).monitor,
                    frames + if e.PollMonitor? && c.source.latest.Some? then [c.source.latest.value] else [])
  {
    if e.PollMonitor? && c.source.latest.Some? {
      NotedIsCounted(c.monitor, frames, c.source.latest.value);
    } else {
      assert frames + [] == frames;
    }
  }

  lemma {:induction false} MonitorCountsReceived(events: seq<Event>)
    ensures Counted(Run(events).monitor, Received(events))
  {
    if events != [] {
      var earlier := events[..|events| - 1];
      MonitorCountsReceived(earlier);
      RunBalances(earlier);
      StepIsCounted(Run(earlier), events[|events| - 1], Received(earlier));
    }
  }

  /** The frames that never reached the monitor and never will. */
  function Lost(c: Capture): int {
    c.source.produced - c.monitor.received - Pending(c.source)
  }

  /** True if no frame was lost before the first one received or after the last one. */
  predicate LossesAreGaps(c: Capture) {
    c.monitor.last.Some? && c.monitor.first == 1 && c.monitor.last.value + Pending(c.source) == c.source.produced
  }

  /**
   The reported drop count never exceeds the true loss, and equals it exactly if no restart threw
   a frame away, or if all losses lie between received frames.
   */
  lemma ReportIsLowerBound(events: seq<Event>)
    ensures var c := Run(events);
      Reported(c.source, c.monitor) <= Lost(c) &&
      (Reported(c.source, c.monitor) == Lost(c) <==> c.source.discarded == 0 || LossesAreGaps(c))
  {
    RunBalances(events);
  }

  /** A frame still in the mailbox at a restart is lost, and the report does not notice. */
  lemma RestartHidesLoss(events: seq<Event>, error: string)
    requires Run(events).source.latest.Some?
    ensures var before, after := Run(events), Run(events + [Reconnect(error)]);
      Lost(after) == Lost(before) + 1 &&
      Reported(after.source, after.monitor) == Reported(before.source, before.monitor)
  {
    RunAppend(events, Reconnect(error));
  }

  lemma RunAppend(events: seq<Event>, e: Event)
    ensures Run(events + [e]) == Step(Run(events), e)
  {
    assert (events + [e])[..|events|] == events;
  }

  // ----- the objects

  class CameraSource {
    var latestFrame: Option<Frame>
    var nextSequence: nat
    var producedFrames: nat
    var overwrittenFrames: nat
    var restartCount: nat
    var phase: Phase
    var error: string
    ghost var discarded: nat

    ghost function Model(): Source
      reads this
    {
      Source(latestFrame, nextSequence, producedFrames, overwrittenFrames, restartCount, phase, error, discarded)
    }

    constructor ()
      ensures Model() == NEW_SOURCE
    {
      latestFrame, nextSequence, producedFrames, overwrittenFrames, restartCount := None, 0, 0, 0, 0;
      phase, error, discarded := Starting, "", 0;
    }

    method TakeLatestFrame() returns (frame: Option<Frame>)
      modifies this
      ensures frame == old(latestFrame) && Model() == old(Model()).(latest := None)
    {
      frame := latestFrame;
      latestFrame := None;
    }

    /** Numbers a complete frame and puts it into the mailbox, over whatever is there. */
    method PublishFrame(capturedAt: Option<int>, image: Image)
      modifies this
      ensures Model() == Published(old(Model()), capturedAt, image)
    {
      nextSequence := nextSequence + 1;
      if latestFrame.Some? {
        overwrittenFrames := overwrittenFrames + 1;
      }
      latestFrame := Some(Frame(nextSequence, capturedAt, image));
      producedFrames := producedFrames + 1;
      phase := Streaming;
      error := "";
    }

    method Prepare()
      modifies this
      ensures Model() == Emptied(old(Model()))
    {
      discarded := discarded + Pending(Model());
      latestFrame := None;
    }

    method SetFailure(message: string)
      modifies this
      ensures Model() == FailedWith(old(Model()), message)
    {
      phase := Failed;
      error := message;
    }

    method SetReconnecting(message: string)
      modifies this
      ensures Model() == Reconnected(old(Model()), message)
    {
      discarded := discarded + Pending(Model());
      latestFrame := None;
      phase := Reconnecting;
      error := message;
      restartCount := restartCount + 1;
    }

    method SetStopped()
      modifies this
      ensures Model() == old(Model()).(phase := Stopped)
    {
      phase := Stopped;
    }
  }

  class CameraMonitor {
    const source: CameraSource
    var lastSequence: Option<nat>
    var receivedFrames: nat
    var droppedBeforeProcessing: nat
    var framesWithCaptureTimestamp: nat
    ghost var firstSequence: nat

    ghost function Model(): Monitor
      reads this
    {
      Monitor(lastSequence, receivedFrames, droppedBeforeProcessing, framesWithCaptureTimestamp, firstSequence)
    }

    constructor (source: CameraSource)
      ensures this.source == source && Model() == NEW_MONITOR
    {
      this.source := source;
      lastSequence, receivedFrames, droppedBeforeProcessing, framesWithCaptureTimestamp := None, 0, 0, 0;
      firstSequence := 0;
    }

    method Poll()
      modifies this, source
      ensures Capture(source.Model(), Model()) == Step(old(Capture(source.Model(), Model())), PollMonitor)
    {
      var frame := source.TakeLatestFrame();
      if frame.None? {
        return;
      }
      var sequence := frame.value.sequence;
      if lastSequence.Some? && sequence > lastSequence.value + 1 {
        droppedBeforeProcessing := droppedBeforeProcessing + (sequence - lastSequence.value - 1);
      }
      firstSequence := if lastSequence.None? then sequence else firstSequence;
      lastSequence := Some(sequence);
      receivedFrames := receivedFrames + 1;
      if frame.value.capturedAt.Some? {
        framesWithCaptureTimestamp := framesWithCaptureTimestamp + 1;
      }
    }

    /** The drop count of a snapshot: the larger of the gaps seen and the overwrites counted. */
    method DroppedFrames() returns (count: nat)
      ensures count == Reported(source.Model(), Model())
      ensures Balanced(Capture(source.Model(), Model())) ==> count <= Lost(Capture(source.Model(), Model()))
    {
      count := if droppedBeforeProcessing > source.overwrittenFrames then droppedBeforeProcessing
               else source.overwrittenFrames;
    }
  }
}
