/**
 The rpicam source: a metadata thread queues capture timestamps while the frame loop reads frames
 and takes one timestamp for each. A restart ends both and starts over. The steps below interleave
 in every order the locks, joins and thread starts allow.
 */
module RpicamCameraSource {
  import opened Basics
  import C = CameraCapture
  import opened PipeReaders

  /** Where the worker thread is. */
  datatype Worker =
    | Idle                          // before an attempt
    | MailboxCleared                // `prepare_attempt` emptied the mailbox, not yet the queue
    | QueueCleared                  // ready to start the child
    | ReadingFrame
    | AwaitingMetadata(image: C.Image)
    | Holding(image: C.Image, timestamp: int)  // a frame and its timestamp, not yet published
    | JoiningReader
    | AttemptOver
    | Finished

  /**
   One attempt as it went: everything its child wrote and writes, the size of a frame, the timestamps
   parsed in it, and the images and timestamps of its published frames.
   */
  datatype Attempt = Attempt(
    stream: seq<bv8>, size: nat, parsed: seq<int>, images: seq<C.Image>, carried: seq<int>, firstSequence: nat)

  /** `past` and `current` are history. */
  datatype Rpicam = Rpicam(
    source: C.Source, timestamps: seq<int>, worker: Worker, readerAlive: bool,
    past: seq<Attempt>, current: Attempt)

  const START := Rpicam(C.NEW_SOURCE, [], Idle, false, [], Attempt([], 1, [], [], [], 1))

  datatype Event =
    | ClearMailbox
    | ClearQueue
    | StartChild(stream: seq<bv8>, size: nat)
    | StartFails(error: string)
    | FrameRead(image: C.Image)
    | ReadEnds
    | MetadataLine(timestamp: int)
    | TimestampTaken
    | MetadataMissing
    | FramePublished
    | ReaderJoined
    | FailureSet(error: string)
    | RestartScheduled(error: string)
    | StopRequested
    | FrameTaken

  /** `image` is the frame that follows the published ones in the stream. */
  ghost predicate IsNext(a: Attempt, image: C.Image) {
    SliceIs(a.stream, |a.images|, a.size, image)
  }

  /** The steps that are possible. A frame read gives the next frame of the stream: `PipeReaders.ReadExact` does. */
  ghost predicate Enabled(s: Rpicam, e: Event) {
    match e
    case ClearMailbox => s.worker == Idle
    case ClearQueue => s.worker == MailboxCleared
    case StartChild(_, _) => s.worker == QueueCleared
    case StartFails(_) => s.worker == QueueCleared
    case FrameRead(image) => s.worker == ReadingFrame && IsNext(s.current, image)
    case ReadEnds => s.worker == ReadingFrame
    case MetadataLine(_) => s.readerAlive
    case TimestampTaken => s.worker.AwaitingMetadata? && s.timestamps != []
    case MetadataMissing => s.worker.AwaitingMetadata? && s.timestamps == []
    case FramePublished => s.worker.Holding?
    case ReaderJoined => s.worker == JoiningReader
    case FailureSet(_) => s.worker == JoiningReader || s.worker == AttemptOver
    case RestartScheduled(_) => s.worker == AttemptOver
    case StopRequested => s.worker == Idle || s.worker == AttemptOver
    case FrameTaken => true
  }

  ghost function Step(s: Rpicam, e: Event): Rpicam
    requires Enabled(s, e)
  {
    match e
    case ClearMailbox => s.(source := C.Emptied(s.source), worker := MailboxCleared)
    case ClearQueue => s.(timestamps := [], worker := QueueCleared)
    case StartChild(stream, size) =>
      s.(worker := ReadingFrame, readerAlive := true,
         past := s.past + [s.current], current := Attempt(stream, size, [], [], [], s.source.nextSequence + 1))
    case StartFails(error) => s.(source := C.FailedWith(s.source, error), worker := AttemptOver)
    case FrameRead(image) => s.(worker := AwaitingMetadata(image))
    case ReadEnds => s.(worker := JoiningReader)
    case MetadataLine(timestamp) =>
      s.(timestamps := s.timestamps + [timestamp], current := s.current.(parsed := s.current.parsed + [timestamp]))
    case TimestampTaken => s.(timestamps := s.timestamps[1..], worker := Holding(s.worker.image, s.timestamps[0]))
    case MetadataMissing => s.(worker := JoiningReader)
    case FramePublished =>
      s.(source := C.Published(s.source, Some(s.worker.timestamp), s.worker.image), worker := ReadingFrame,
         current := s.current.(images := s.current.images + [s.worker.image],
                               carried := s.current.carried + [s.worker.timestamp]))
    case ReaderJoined => s.(worker := AttemptOver, readerAlive := false)
    case FailureSet(error) => s.(source := C.FailedWith(s.source, error))
    case RestartScheduled(error) => s.(source := C.Reconnected(s.source, error), worker := Idle)
    case StopRequested => s.(source := s.source.(phase := C.Stopped), worker := Finished)
    case FrameTaken => s.(source := s.source.(latest := None))
  }

  /** The state after a sequence of steps, unless one of them was not possible. */
  ghost function Run(events: seq<Event>): Option<Rpicam> {
    if events == [] then Some(START)
    else
      var before := Run(events[..|events| - 1]);
      var e := events[|events| - 1];
      if before.Some? && Enabled(before.value, e) then Some(Step(before.value, e)) else None
  }

  /** Frame k of the attempt carries timestamp k of the same attempt, and holds frame k of its stream. */
  ghost predicate Paired(a: Attempt) {
    a.carried <= a.parsed && |a.images| == |a.carried| && ImagesAreSlices(a)
  }

  ghost predicate ImagesAreSlices(a: Attempt) {
    forall k :: 0 <= k < |a.images| ==> SliceIs(a.stream, k, a.size, a.images[k])
  }

  /** The attempts published consecutive runs of sequence numbers, together 1, 2, 3, ... */
  predicate NumberedOn(past: seq<Attempt>, current: Attempt) {
    (forall i :: 0 < i < |past| ==> past[i].firstSequence == past[i - 1].firstSequence + |past[i - 1].carried|) &&
    (past != [] ==>
      past[0].firstSequence == 1 &&
      current.firstSequence == past[|past| - 1].firstSequence + |past[|past| - 1].carried|) &&
    (past == [] ==> current.firstSequence == 1)
  }

  function Held(s: Rpicam): seq<int> {
    if s.worker.Holding? then [s.worker.timestamp] else []
  }

  predicate Running(w: Worker) {
    w == ReadingFrame || w.AwaitingMetadata? || w.Holding? || w == JoiningReader
  }

  /** The timestamps of the running attempt are carried, held, or still queued. */
  ghost predicate Queued(s: Rpicam) {
    && (s.readerAlive <==> Running(s.worker))
    && (s.readerAlive ==> s.current.parsed == s.current.carried + Held(s) + s.timestamps)
    && (s.worker == QueueCleared ==> s.timestamps == [])
  }

  /** An image in hand is the next one, and every attempt is paired. */
  ghost predicate AllPaired(s: Rpicam) {
    && (s.worker.AwaitingMetadata? || s.worker.Holding? ==> IsNext(s.current, s.worker.image))
    && Paired(s.current) && (forall i :: 0 <= i < |s.past| ==> Paired(s.past[i]))
  }

  ghost predicate Accounted(s: Rpicam) {
    Queued(s) && AllPaired(s)
  }

  /** The published frames and the one in the mailbox. */
  predicate Numbered(s: Rpicam) {
    && NumberedOn(s.past, s.current)
    && |s.current.images| == |s.current.carried|
    && s.source.nextSequence == s.source.produced == s.current.firstSequence - 1 + |s.current.carried|
    && (s.source.latest.Some? ==>
          s.source.latest.value.sequence == s.source.nextSequence &&
          s.current.carried != [] &&
          s.source.latest.value.capturedAt == Some(s.current.carried[|s.current.carried| - 1]) &&
          s.source.latest.value.image == s.current.images[|s.current.images| - 1])
    && (s.worker == MailboxCleared || s.worker == QueueCleared ==> s.source.latest.None?)
  }

  ghost predicate InStep(s: Rpicam) {
    Accounted(s) && Numbered(s)
  }

  lemma StepKeepsAccounted(s: Rpicam, e: Event)
    requires Accounted(s) && Enabled(s, e)
    ensures Accounted(Step(s, e))
  {
    StepKeepsQueued(s, e);
    StepKeepsPaired(s, e);
  }

  lemma StepKeepsQueued(s: Rpicam, e: Event)
    requires Queued(s) && Enabled(s, e)
    ensures Queued(Step(s, e))
  {
    match e
    case TimestampTaken => assert s.timestamps == [s.timestamps[0]] + s.timestamps[1..];
    case _ =>
  }

  lemma StepKeepsPaired(s: Rpicam, e: Event)
    requires Queued(s) && AllPaired(s) && Enabled(s, e)
    ensures AllPaired(Step(s, e))
  {
    match e
    case FramePublished => PublishingKeepsPaired(s);
    case MetadataLine(timestamp) => assert s.current.parsed <= Step(s, e).current.parsed;
    case _ =>
  }

  lemma PublishingKeepsPaired(s: Rpicam)
    requires Queued(s) && AllPaired(s) && Enabled(s, FramePublished)
    ensures Paired(Step(s, FramePublished).current)
  {
  }

  lemma StepKeepsNumbered(s: Rpicam, e: Event)
    requires Numbered(s) && Enabled(s, e)
    ensures Numbered(Step(s, e))
  {
    match e
    case FramePublished =>
      var t := Step(s, e);
      assert t.current.carried[|t.current.carried| - 1] == s.worker.timestamp;
    case StartChild(_, _) => AttemptContinues(s.past, s.current, Step(s, e).current);
    case _ =>
  }

  lemma AttemptContinues(past: seq<Attempt>, current: Attempt, next: Attempt)
    requires NumberedOn(past, current) && next.firstSequence == current.firstSequence + |current.carried|
    ensures NumberedOn(past + [current], next)
  {
  }

  /**
   Under every interleaving of the metadata thread, the frame loop, the consumer and restarts: the
   k-th frame published in an attempt holds the k-th frame of that attempt's stream and carries the k-th
   timestamp parsed in it, and the published sequence numbers are 1, 2, 3, ... with none skipped.
   */
  lemma {:induction false} RunKeepsInStep(events: seq<Event>)
    requires Run(events).Some?
    ensures InStep(Run(events).value)
  {
    if events != [] {
      RunKeepsInStep(events[..|events| - 1]);
      StepKeepsAccounted(Run(events[..|events| - 1]).value, events[|events| - 1]);
      StepKeepsNumbered(Run(events[..|events| - 1]).value, events[|events| - 1]);
    }
  }

  /**
   A frame the consumer takes holds the bytes of its own place in its own attempt's stream, together
   with the timestamp of that place.
   */
  lemma TakenFrameIsPaired(events: seq<Event>)
    requires Run(events).Some? && Run(events).value.source.latest.Some?
    ensures var s := Run(events).value; var frame := s.source.latest.value;
      var k := frame.sequence - s.current.firstSequence;
      0 <= k < |s.current.parsed| && frame.capturedAt == Some(s.current.parsed[k]) &&
      SliceIs(s.current.stream, k, s.current.size, frame.image)
  {
    RunKeepsInStep(events);
  }

  lemma NextSlice(k: nat, size: nat)
    ensures (k + 1) * size == k * size + size
  {
  }

  // ----- reachable states

  ghost predicate LeadsTo(events: seq<Event>, s: Rpicam) {
    Run(events) == Some(s)
  }

  ghost predicate Reachable(s: Rpicam) {
    exists events :: LeadsTo(events, s)
  }

  lemma StartIsReachable()
    ensures Reachable(START)
  {
    assert LeadsTo([], START);
  }

  lemma StepIsReachable(s: Rpicam, e: Event)
    requires Reachable(s) && Enabled(s, e)
    ensures Reachable(Step(s, e))
  {
    var events :| LeadsTo(events, s);
    RunAppend(events, e, s);
    Reaches(events + [e], Step(s, e));
  }

  lemma Reaches(events: seq<Event>, s: Rpicam)
    requires LeadsTo(events, s)
    ensures Reachable(s)
  {
  }

  lemma RunAppend(events: seq<Event>, e: Event, s: Rpicam)
    requires LeadsTo(events, s) && Enabled(s, e)
    ensures LeadsTo(events + [e], Step(s, e))
  {
    var longer := events + [e];
    assert longer[..|longer| - 1] == events && longer[|longer| - 1] == e;
  }

  lemma ReachableIsInStep(s: Rpicam)
    requires Reachable(s)
    ensures InStep(s)
  {
    var events :| LeadsTo(events, s);
    RunKeepsInStep(events);
  }

  /** A child is started with an empty queue, and its metadata reader runs for as long as frames are read. */
  lemma ReaderGoesWithFrames(s: Rpicam)
    requires Reachable(s)
    ensures s.worker == QueueCleared ==> s.timestamps == []
    ensures Running(s.worker) ==> s.readerAlive
  {
    ReachableIsInStep(s);
  }

  // ----- the object

  /** What other threads do between two steps of the worker: the consumer, and the metadata reader. */
  datatype Other = Take | Line(timestamp: Option<int>)

  /**
   One turn of the frame loop as the outside world decides it: whether a stop is seen first, how the
   pipe behaves during the frame read that starts at `start`, whether a stop is seen while waiting for
   metadata, and what others do meanwhile.
   */
  datatype Beat = Beat(
    stop: bool, others: seq<Other>, turns: seq<Turn>, start: Time, meanwhile: seq<Other>, stopWhileWaiting: bool)

  /**
   One attempt: `startError` is why the child could not be started, `stream` what it writes and
   `exitReason` how it ended otherwise; a stop may be seen before it, when its child is gone, after it, or in the pause.
   */
  datatype Script = Script(
    stopBefore: bool, startError: Option<string>, stream: seq<bv8>, beats: seq<Beat>, stopAtExit: bool,
      exitReason: string,
    stopAfter: bool, others: seq<Other>, stopWhileWaiting: bool)

  const UNEXPECTED_STOP := "rpicam camera stopped unexpectedly"
  const MISSING_METADATA := "camera frame arrived without FrameWallClock metadata"
  const READ_FAILED := "failed to read the rpicam YUV stream"

  // ----- how an attempt goes

  /** How the frame loop ends. */
  datatype End = StopWasSeen | ReadEnded(outcome: Outcome) | MetadataMissed

  /** How many frames it publishes until then. */
  datatype Course = Course(published: nat, end: End)

  /** The timestamps that others deliver. */
  function TimestampsOf(others: seq<Other>): seq<int> {
    if others == [] then []
    else
      var last := others[|others| - 1];
      TimestampsOf(others[..|others| - 1]) + if last.Line? && last.timestamp.Some? then [last.timestamp.value] else []
  }

  /** The timestamps that wait for the frame of `beat`. */
  function WaitingFor(beat: Beat, queue: seq<int>): seq<int> {
    queue + TimestampsOf(beat.others) + TimestampsOf(beat.meanwhile)
  }

  /**
   The frame loop over `beats`, with `available` bytes left in the pipe and the timestamps `queue` waiting.
   When the beats are exhausted the child is gone.
   */
  function CourseOf(beats: seq<Beat>, available: nat, size: nat, timeout: Time, queue: seq<int>): Course {
    if beats == [] then Course(0, ReadEnded(EndOfFile))
    else if beats[0].stop then Course(0, StopWasSeen)
    else
      var outcome := ReadingOf(beats[0].turns, available, size, beats[0].start, timeout).outcome;
      var waiting := WaitingFor(beats[0], queue);
      if outcome == Outcome.Stopped then Course(0, StopWasSeen)
      else if outcome != Complete then Course(0, ReadEnded(outcome))
      else if waiting == [] then Course(0, if beats[0].stopWhileWaiting then StopWasSeen else MetadataMissed)
      else
        var more := CourseOf(beats[1..], Less(available, size), size, timeout, waiting[1..]);
        more.(published := more.published + 1)
  }

  function Less(a: nat, b: nat): nat {
    if a < b then 0 else a - b
  }

  /** The failure an attempt leaves behind, if it is not stopped. */
  function ReasonOf(end: End, stalled: string, exitReason: string): string {
    match end
    case MetadataMissed => MISSING_METADATA
    case ReadEnded(TimedOut) => stalled
    case ReadEnded(Failed) => READ_FAILED
    case _ => exitReason
  }

  /** The beat brings a whole frame and a timestamp for it, and no stop. */
  ghost predicate Delivers(beat: Beat, size: nat, timeout: Time) {
    !beat.stop && Completes(beat.turns, size, beat.start, timeout) &&
    TimestampsOf(beat.others) + TimestampsOf(beat.meanwhile) != []
  }

  lemma FramesFit(n: nat, size: nat, available: nat)
    requires n > 0 && n * size <= available
    ensures size <= available && (n - 1) * size <= available - size
  {
    NextSlice(n - 1, size);
  }

  lemma DeliveredBeat(beats: seq<Beat>, available: nat, size: nat, timeout: Time, queue: seq<int>)
    requires beats != [] && size <= available && Delivers(beats[0], size, timeout)
    ensures WaitingFor(beats[0], queue) != []
    ensures CourseOf(beats, available, size, timeout, queue).published ==
      CourseOf(beats[1..], available - size, size, timeout, WaitingFor(beats[0], queue)[1..]).published + 1
  {
    ReadCompletesIff(beats[0].turns, available, size, beats[0].start, timeout);
  }

  /** Beats that bring a frame and a timestamp each have that many frames published, as long as the stream lasts. */
  lemma {:induction false} DeliveredFramesArePublished(beats: seq<Beat>, n: nat, available: nat, size: nat,
                                                       timeout: Time, queue: seq<int>)
    requires n <= |beats| && n * size <= available
    requires forall k :: 0 <= k < n ==> Delivers(beats[k], size, timeout)
    ensures CourseOf(beats, available, size, timeout, queue).published >= n
    decreases n
  {
    if n > 0 {
      FramesFit(n, size, available);
      assert Delivers(beats[0], size, timeout);
      DeliveredBeat(beats, available, size, timeout, queue);
      assert forall k :: 0 <= k < n - 1 ==> beats[1..][k] == beats[k + 1];
      DeliveredFramesArePublished(beats[1..], n - 1, available - size, size, timeout,
                                  WaitingFor(beats[0], queue)[1..]);
    }
  }

  // ----- stops

  predicate NoStopInBeat(beat: Beat) {
    !beat.stop && !beat.stopWhileWaiting && StopSeen !in beat.turns
  }

  /** Nothing in the attempt requests a stop. */
  predicate NoStop(script: Script) {
    !script.stopBefore && !script.stopAtExit && !script.stopAfter && !script.stopWhileWaiting &&
    forall k :: 0 <= k < |script.beats| ==> NoStopInBeat(script.beats[k])
  }

  lemma {:induction false} UnstoppedLoop(beats: seq<Beat>, available: nat, size: nat, timeout: Time, queue: seq<int>)
    requires forall k :: 0 <= k < |beats| ==> NoStopInBeat(beats[k])
    ensures CourseOf(beats, available, size, timeout, queue).end != StopWasSeen
    decreases |beats|
  {
    if beats != [] {
      assert NoStopInBeat(beats[0]);
      if ReadingOf(beats[0].turns, available, size, beats[0].start, timeout).outcome == Outcome.Stopped {
        StoppedWasSeen(beats[0].turns, available, size, beats[0].start, timeout);
      } else if WaitingFor(beats[0], queue) != [] {
        assert forall k :: 0 <= k < |beats| - 1 ==> beats[1..][k] == beats[k + 1];
        UnstoppedLoop(beats[1..], Less(available, size), size, timeout, WaitingFor(beats[0], queue)[1..]);
      }
    }
  }

  /** The attempt ends by a stop, seen while it ran or right after it. */
  predicate EndsStopped(script: Script, size: nat, timeout: Time) {
    script.stopAtExit || script.stopAfter ||
    (script.startError.None? && CourseOf(script.beats, |script.stream|, size, timeout, []).end == StopWasSeen)
  }

  /** How many attempts the worker makes. */
  function AttemptsOf(scripts: seq<Script>, size: nat, timeout: Time): nat {
    if scripts == [] || scripts[0].stopBefore then 0
    else if EndsStopped(scripts[0], size, timeout) || scripts[0].stopWhileWaiting then 1
    else 1 + AttemptsOf(scripts[1..], size, timeout)
  }

  /** How many restarts it announces. */
  function RestartsOf(scripts: seq<Script>, size: nat, timeout: Time): nat {
    if scripts == [] || scripts[0].stopBefore || EndsStopped(scripts[0], size, timeout) then 0
    else if scripts[0].stopWhileWaiting then 1
    else 1 + RestartsOf(scripts[1..], size, timeout)
  }

  lemma UnstoppedAttempt(script: Script, size: nat, timeout: Time)
    requires NoStop(script)
    ensures !EndsStopped(script, size, timeout)
  {
    UnstoppedLoop(script.beats, |script.stream|, size, timeout, []);
  }

  /** The worker leaves attempts out only after a stop. */
  lemma {:induction false} OnlyStopsEndTheWorker(scripts: seq<Script>, size: nat, timeout: Time)
    ensures var attempts := AttemptsOf(scripts, size, timeout);
      attempts <= |scripts| &&
      (attempts < |scripts| ==> exists k :: 0 <= k <= attempts && !NoStop(scripts[k]))
    decreases |scripts|
  {
    if scripts != [] {
      if NoStop(scripts[0]) {
        UnstoppedAttempt(scripts[0], size, timeout);
        var rest := scripts[1..];
        OnlyStopsEndTheWorker(rest, size, timeout);
        var attempts := AttemptsOf(rest, size, timeout);
        if attempts < |rest| {
          var k :| 0 <= k <= attempts && !NoStop(rest[k]);
          assert !NoStop(scripts[k + 1]);
        }
      } else {
        assert !NoStop(scripts[0]);
        AttemptsWithin(scripts, size, timeout);
      }
    }
  }

  lemma {:induction false} AttemptsWithin(scripts: seq<Script>, size: nat, timeout: Time)
    ensures AttemptsOf(scripts, size, timeout) <= |scripts|
    ensures RestartsOf(scripts, size, timeout) <= AttemptsOf(scripts, size, timeout)
      <= RestartsOf(scripts, size, timeout) + 1
    decreases |scripts|
  {
    if scripts != [] {
      AttemptsWithin(scripts[1..], size, timeout);
    }
  }

  /** Without a stop every attempt is made, and a restart follows each. */
  lemma {:induction false} UnstoppedWorkerGoesOn(scripts: seq<Script>, size: nat, timeout: Time)
    requires forall k :: 0 <= k < |scripts| ==> NoStop(scripts[k])
    ensures AttemptsOf(scripts, size, timeout) == RestartsOf(scripts, size, timeout) == |scripts|
    decreases |scripts|
  {
    if scripts != [] {
      assert NoStop(scripts[0]);
      UnstoppedAttempt(scripts[0], size, timeout);
      assert forall k :: 0 <= k < |scripts| - 1 ==> scripts[1..][k] == scripts[k + 1];
      UnstoppedWorkerGoesOn(scripts[1..], size, timeout);
    }
  }

  lemma WorkerGoesOn(scripts: seq<Script>, size: nat, timeout: Time)
    ensures var attempts := AttemptsOf(scripts, size, timeout);
      attempts <= |scripts| &&
      (attempts < |scripts| ==> exists k :: 0 <= k <= attempts && !NoStop(scripts[k])) &&
      ((forall k :: 0 <= k < |scripts| ==> NoStop(scripts[k])) ==>
         attempts == RestartsOf(scripts, size, timeout) == |scripts|)
  {
    OnlyStopsEndTheWorker(scripts, size, timeout);
    if forall k :: 0 <= k < |scripts| ==> NoStop(scripts[k]) {
      UnstoppedWorkerGoesOn(scripts, size, timeout);
    }
  }

  /** No attempt begins once a stop was seen, and none but the last was stopped. */
  lemma {:induction false} StopsEndTheWorker(scripts: seq<Script>, size: nat, timeout: Time, k: nat)
    requires k < AttemptsOf(scripts, size, timeout) <= |scripts|
    ensures !scripts[k].stopBefore
    ensures k + 1 < AttemptsOf(scripts, size, timeout) ==>
      !EndsStopped(scripts[k], size, timeout) && !scripts[k].stopWhileWaiting
    decreases k
  {
    if k > 0 {
      StopsEndTheWorker(scripts[1..], size, timeout, k - 1);
    }
  }

  /**
   The state shared between the threads: the mailbox and the timestamp queue, each under its lock.
   `machine` is the state of the step machine that the steps taken so far lead to.
   */
  class RpicamCameraSource {
    const mailbox: C.CameraSource
    const frameSize: nat
    const frameTimeout: Time
    const stalledMessage: string
    var metadataTimestamps: seq<int>
    var readerRunning: bool

    ghost var machine: Rpicam

    ghost predicate Valid()
      reads this, mailbox
    {
      Reachable(machine) && machine.source == mailbox.Model() &&
      machine.timestamps == metadataTimestamps && machine.readerAlive == readerRunning
    }

    constructor (frameSize: nat, frameTimeout: Time, stalledMessage: string)
      ensures Valid() && machine == START && fresh(mailbox)
      ensures this.frameSize == frameSize && this.frameTimeout == frameTimeout && this.stalledMessage == stalledMessage
    {
      this.frameSize, this.frameTimeout, this.stalledMessage := frameSize, frameTimeout, stalledMessage;
      mailbox := new C.CameraSource();
      metadataTimestamps, readerRunning, machine := [], false, START;
      StartIsReachable();
    }

    /** History: `e` was the next step. */
    ghost method Happens(e: Event)
      requires Reachable(machine) && Enabled(machine, e)
      modifies this`machine
      ensures Reachable(machine) && machine == Step(old(machine), e)
    {
      StepIsReachable(machine, e);
      machine := Step(machine, e);
    }

    // ----- steps of other threads

    method TakeLatestFrame() returns (frame: Option<C.Frame>)
      requires Valid()
      modifies this, mailbox
      ensures Valid() && machine == Step(old(machine), FrameTaken) && frame == old(machine).source.latest
    {
      frame := mailbox.TakeLatestFrame();
      Happens(FrameTaken);
    }

    /** The consumer of the metadata reader: a line that holds a timestamp queues it. */
    method OnMetadataLine(timestamp: Option<int>)
      requires Valid() && readerRunning
      modifies this
      ensures readerRunning
      ensures metadataTimestamps ==
        old(metadataTimestamps) + if timestamp.Some? then [timestamp.value] else []
      ensures Valid() && machine == if timestamp.Some?
        then Step(old(machine), MetadataLine(timestamp.value)) else old(machine)
    {
      if timestamp.None? {
        return;
      }
      metadataTimestamps := metadataTimestamps + [timestamp.value];
      Happens(MetadataLine(timestamp.value));
    }

    /** Lets other threads run; without a metadata reader there is nobody to deliver a line. */
    method Meanwhile(others: seq<Other>)
      requires Valid()
      modifies this, mailbox
      ensures Valid()
      ensures machine.worker == old(machine.worker) && mailbox.restartCount == old(mailbox.restartCount)
      ensures (mailbox.phase, mailbox.error) == old((mailbox.phase, mailbox.error))
      ensures machine.current == old(machine.current).(parsed := machine.current.parsed)
      ensures readerRunning == old(readerRunning)
      ensures metadataTimestamps == old(metadataTimestamps) + if readerRunning then TimestampsOf(others) else []
    {
      assert others[..|others|] == others;
      for i := 0 to |others|
        invariant Valid() && readerRunning == old(readerRunning)
        invariant metadataTimestamps ==
          old(metadataTimestamps) + if readerRunning then TimestampsOf(others[..i]) else []
        invariant machine.worker == old(machine.worker) && mailbox.restartCount == old(mailbox.restartCount)
        invariant (mailbox.phase, mailbox.error) == old((mailbox.phase, mailbox.error))
        invariant machine.current == old(machine.current).(parsed := machine.current.parsed)
      {
        assert others[..i + 1][..i] == others[..i];
        match others[i]
        case Take =>
          var frame := mailbox.TakeLatestFrame();
          Happens(FrameTaken);
        case Line(timestamp) =>
          if readerRunning && timestamp.Some? {
            OnMetadataLine(timestamp);
          }
      }
    }

    // ----- steps of the worker

    /** What waiting for metadata returns once it wakes up: the oldest timestamp, if there is one. */
    method WaitForMetadata() returns (timestamp: Option<int>)
      requires Valid() && machine.worker.AwaitingMetadata?
      modifies this
      ensures Valid()
      ensures if old(metadataTimestamps) == [] then timestamp == None && machine == Step(old(machine), MetadataMissing)
              else timestamp == Some(old(metadataTimestamps)[0]) && machine == Step(old(machine), TimestampTaken)
    {
      if metadataTimestamps == [] {
        Happens(MetadataMissing);
        return None;
      }
      timestamp := Some(metadataTimestamps[0]);
      metadataTimestamps := metadataTimestamps[1..];
      Happens(TimestampTaken);
    }

    method PrepareAttempt()
      requires Valid() && machine.worker == Idle
      modifies this, mailbox
      ensures Valid() && machine == Step(Step(old(machine), ClearMailbox), ClearQueue)
    {
      mailbox.Prepare();
      Happens(ClearMailbox);
      metadataTimestamps := [];
      Happens(ClearQueue);
    }

    method Publish(image: C.Image, timestamp: int)
      requires Valid() && machine.worker == Holding(image, timestamp)
      modifies this, mailbox
      ensures Valid() && machine == Step(old(machine), FramePublished)
    {
      mailbox.PublishFrame(Some(timestamp), image);
      Happens(FramePublished);
    }

    method SetFailure(message: string)
      requires Valid() && (machine.worker == JoiningReader || machine.worker == AttemptOver)
      modifies this, mailbox
      ensures Valid() && machine == Step(old(machine), FailureSet(message))
    {
      mailbox.SetFailure(message);
      Happens(FailureSet(message));
    }

    /** What the loop does with a complete frame: publish it under the oldest timestamp, or give the attempt up. */
    method PairFrame(image: C.Image, stopWhileWaiting: bool) returns (end: Option<End>)
      requires Valid() && machine.worker == AwaitingMetadata(image)
      modifies this, mailbox
      ensures Valid() && mailbox.restartCount == old(mailbox.restartCount)
      ensures end == if old(metadataTimestamps) != [] then None
                     else Some(if stopWhileWaiting then StopWasSeen else MetadataMissed)
      ensures end.None? ==>
        machine.worker == ReadingFrame &&
        mailbox.Model() == C.Published(old(mailbox.Model()), Some(old(metadataTimestamps)[0]), image) &&
        metadataTimestamps == old(metadataTimestamps)[1..] &&
        machine.current == old(machine.current).(
          images := old(machine.current).images + [image], carried := machine.current.carried)
      ensures end.Some? ==>
        machine.worker == JoiningReader && machine.current == old(machine.current) &&
        mailbox.Model() == if end == Some(StopWasSeen) then old(mailbox.Model())
          else C.FailedWith(old(mailbox.Model()), MISSING_METADATA)
    {
      var timestamp := WaitForMetadata();
      if timestamp.None? {
        if stopWhileWaiting {
          return Some(StopWasSeen);
        }
        SetFailure(MISSING_METADATA);
        return Some(MetadataMissed);
      }
      Publish(image, timestamp.value);
      return None;
    }

    /** The pipe of the running attempt, read up to where the next frame begins. */
    ghost predicate AtFrame(pipe: Pipe)
      reads this, pipe
    {
      pipe.Valid() && pipe.stream == machine.current.stream && machine.current.size == frameSize &&
      pipe.position == |machine.current.images| * frameSize
    }

    /** Reads a frame; a complete one is the next of the stream. */
    method ReadFrame(pipe: Pipe, beat: Beat) returns (outcome: Outcome, image: C.Image)
      requires AtFrame(pipe)
      modifies pipe
      ensures pipe.Valid()
      ensures outcome == ReadingOf(beat.turns, |pipe.stream| - old(pipe.position), frameSize, beat.start,
                                   frameTimeout).outcome
      ensures outcome == Complete ==>
        IsNext(machine.current, image) && pipe.position == (|machine.current.images| + 1) * frameSize
    {
      var destination := new bv8[frameSize];
      ghost var k, before := |machine.current.images|, pipe.position;
      ReadingIsExact(beat.turns, |pipe.stream| - before, frameSize, beat.start, frameTimeout);
      var rest;
      outcome, rest := ReadExact(pipe, destination, beat.turns, beat.start, frameTimeout);
      image := destination[..];
      if outcome == Complete {
        NextSlice(k, frameSize);
        assert image == destination[..frameSize] == pipe.stream[before..before + frameSize];
      }
    }

    /** How a turn of the frame loop ends the loop, if it does, by the outcome of its read and what waits for it. */
    static function EndOf(outcome: Outcome, waiting: seq<int>, stopWhileWaiting: bool): Option<End> {
      if outcome == Outcome.Stopped then Some(StopWasSeen)
      else if outcome != Complete then Some(ReadEnded(outcome))
      else if waiting == [] then Some(if stopWhileWaiting then StopWasSeen else MetadataMissed)
      else None
    }

    /** The state of the frame loop: still running, or left with `end`. */
    ghost predicate InLoop(pipe: Pipe, end: Option<End>)
      reads this, mailbox, pipe
    {
      Valid() &&
      if end.None? then machine.worker == ReadingFrame && mailbox.phase != C.Failed && AtFrame(pipe)
      else
        machine.worker == JoiningReader &&
        (if end == Some(MetadataMissed) then mailbox.phase == C.Failed && mailbox.error == MISSING_METADATA
         else mailbox.phase != C.Failed)
    }

    /** Waits for the metadata of a complete frame while others run on, and publishes it if there is some. */
    method PublishNext(image: C.Image, meanwhile: seq<Other>, stopWhileWaiting: bool) returns (end: Option<End>)
      requires Valid() && readerRunning && machine.worker == ReadingFrame && mailbox.phase != C.Failed
      requires IsNext(machine.current, image)
      modifies this, mailbox
      ensures Valid() && mailbox.restartCount == old(mailbox.restartCount)
      ensures var waiting := old(metadataTimestamps) + TimestampsOf(meanwhile);
        end == EndOf(Complete, waiting, stopWhileWaiting) && (end.None? ==> metadataTimestamps == waiting[1..])
      ensures if end.None?
        then
          machine.worker == ReadingFrame && mailbox.phase == C.Streaming &&
          |machine.current.images| == |old(machine.current.images)| + 1
        else
          machine.worker == JoiningReader && machine.current.images == old(machine.current.images) &&
          if end == Some(MetadataMissed) then mailbox.phase == C.Failed && mailbox.error == MISSING_METADATA
          else mailbox.phase != C.Failed
      ensures machine.current.stream == old(machine.current.stream) && machine.current.size == old(machine.current.size)
    {
      Happens(FrameRead(image));
      Meanwhile(meanwhile);
      end := PairFrame(image, stopWhileWaiting);
    }

    /** One turn of the frame loop, from a frame to read to a frame published; otherwise the loop is left. */
    method HandleFrame(pipe: Pipe, beat: Beat) returns (end: Option<End>)
      requires InLoop(pipe, None)
      modifies this, mailbox, pipe
      ensures InLoop(pipe, end) && mailbox.restartCount == old(mailbox.restartCount)
      ensures var outcome := ReadingOf(beat.turns, |pipe.stream| - old(pipe.position), frameSize, beat.start,
                                       frameTimeout).outcome;
        end == EndOf(outcome, WaitingFor(beat, old(metadataTimestamps)), beat.stopWhileWaiting)
      ensures end.Some? ==> |machine.current.images| == |old(machine.current.images)|
      ensures end.None? ==>
        |machine.current.images| == |old(machine.current.images)| + 1 &&
        pipe.position == old(pipe.position) + frameSize <= |pipe.stream| &&
        metadataTimestamps == WaitingFor(beat, old(metadataTimestamps))[1..]
    {
      ReaderGoesWithFrames(machine);
      Meanwhile(beat.others);
      var outcome, image := ReadFrame(pipe, beat);
      if outcome != Complete {
        Happens(ReadEnds);
        return if outcome == Outcome.Stopped then Some(StopWasSeen) else Some(ReadEnded(outcome));
      }
      NextSlice(|machine.current.images|, frameSize);
      end := PublishNext(image, beat.meanwhile, beat.stopWhileWaiting);
    }

    /** The frame loop: frame after frame until a read fails, metadata is missing, or a stop is seen. */
    method FrameLoop(pipe: Pipe, beats: seq<Beat>) returns (end: End)
      requires InLoop(pipe, None)
      modifies this, mailbox, pipe
      ensures InLoop(pipe, Some(end)) && mailbox.restartCount == old(mailbox.restartCount)
      ensures var course := CourseOf(beats, |pipe.stream| - old(pipe.position), frameSize, frameTimeout,
                                     old(metadataTimestamps));
        course.end == end && |machine.current.images| == |old(machine.current.images)| + course.published
    {
      var next := 0;
      ghost var all := CourseOf(beats, |pipe.stream| - pipe.position, frameSize, frameTimeout, metadataTimestamps);
      ghost var before := |machine.current.images|;
      assert beats[0..] == beats;
      while next < |beats| && !beats[next].stop
        invariant next <= |beats| && InLoop(pipe, None) && mailbox.restartCount == old(mailbox.restartCount)
        invariant |machine.current.images| == before + next
        invariant all.end == LoopRest(pipe, beats, next).end
        invariant all.published == next + LoopRest(pipe, beats, next).published
      {
        BeatStep(beats, next, |pipe.stream| - pipe.position, metadataTimestamps);
        var left := HandleFrame(pipe, beats[next]);
        if left.Some? {
          return left.value;
        }
        next := next + 1;
      }
      BeatsOver(beats, next, |pipe.stream| - pipe.position, metadataTimestamps);
      Happens(ReadEnds);
      end := if next < |beats| then StopWasSeen else ReadEnded(EndOfFile);
    }

    ghost function LoopRest(pipe: Pipe, beats: seq<Beat>, next: nat): Course
      requires pipe.Valid() && next <= |beats|
      reads this, pipe
    {
      CourseOf(beats[next..], |pipe.stream| - pipe.position, frameSize, frameTimeout, metadataTimestamps)
    }

    lemma BeatStep(beats: seq<Beat>, next: nat, available: nat, queue: seq<int>)
      requires next < |beats| && !beats[next].stop
      ensures var beat, waiting := beats[next], WaitingFor(beats[next], queue);
              var outcome := ReadingOf(beat.turns, available, frameSize, beat.start, frameTimeout).outcome;
              var end := EndOf(outcome, waiting, beat.stopWhileWaiting);
        CourseOf(beats[next..], available, frameSize, frameTimeout, queue) ==
          if end.Some? then Course(0, end.value)
          else
            var more := CourseOf(beats[next + 1..], Less(available, frameSize), frameSize, frameTimeout, waiting[1..]);
            more.(published := more.published + 1)
    {
      assert beats[next..][1..] == beats[next + 1..];
    }

    lemma BeatsOver(beats: seq<Beat>, next: nat, available: nat, queue: seq<int>)
      requires next <= |beats| && (next < |beats| ==> beats[next].stop)
      ensures CourseOf(beats[next..], available, frameSize, frameTimeout, queue) ==
        Course(0, if next < |beats| then StopWasSeen else ReadEnded(EndOfFile))
    {
    }

    /** Starts the child and the metadata reader. */
    method StartChildProcess(stream: seq<bv8>) returns (pipe: Pipe)
      requires Valid() && machine.worker == QueueCleared
      modifies this
      ensures Valid() && machine == Step(old(machine), StartChild(stream, frameSize))
      ensures fresh(pipe) && AtFrame(pipe) && pipe.position == 0 && pipe.stream == stream
      ensures metadataTimestamps == old(metadataTimestamps) && machine.current.images == []
    {
      readerRunning := true;
      Happens(StartChild(stream, frameSize));
      pipe := new Pipe(stream);
    }

    method JoinReader()
      requires Valid() && machine.worker == JoiningReader
      modifies this
      ensures Valid() && machine == Step(old(machine), ReaderJoined)
    {
      readerRunning := false;
      Happens(ReaderJoined);
    }

    /** Runs the child: the loop takes its course, and the metadata reader is joined. */
    method RunChild(script: Script) returns (end: End)
      requires Valid() && machine.worker == QueueCleared && mailbox.phase != C.Failed
      modifies this, mailbox
      ensures Valid() && machine.worker == AttemptOver && mailbox.restartCount == old(mailbox.restartCount)
      ensures var course := CourseOf(script.beats, |script.stream|, frameSize, frameTimeout, []);
        course == Course(|machine.current.images|, end)
      ensures if end == MetadataMissed then mailbox.phase == C.Failed && mailbox.error == MISSING_METADATA
              else mailbox.phase != C.Failed
    {
      ReaderGoesWithFrames(machine);
      var pipe := StartChildProcess(script.stream);
      end := FrameLoop(pipe, script.beats);
      JoinReader();
    }

    /**
     One attempt of the worker: the loop takes its course, and unless the attempt was stopped it leaves the
     failure that ended it behind.
     */
    method RunOnce(script: Script) returns (stopped: bool)
      requires Valid() && machine.worker == QueueCleared && mailbox.phase != C.Failed
      modifies this, mailbox
      ensures Valid() && machine.worker == AttemptOver
      ensures mailbox.restartCount == old(mailbox.restartCount)
      ensures !stopped ==> mailbox.phase == C.Failed
      ensures script.startError.Some? ==>
        stopped == script.stopAtExit && mailbox.error == script.startError.value
      ensures script.startError.None? ==>
        var course := CourseOf(script.beats, |script.stream|, frameSize, frameTimeout, []);
        |machine.current.images| == course.published &&
        stopped == (course.end == StopWasSeen || script.stopAtExit) &&
        (!stopped ==> mailbox.error == ReasonOf(course.end, stalledMessage, script.exitReason))
    {
      if script.startError.Some? {
        mailbox.SetFailure(script.startError.value);
        Happens(StartFails(script.startError.value));
        return script.stopAtExit;
      }
      var end := RunChild(script);
      stopped := end == StopWasSeen || script.stopAtExit;
      if !stopped && mailbox.phase != C.Failed {
        SetFailure(ReasonOf(end, stalledMessage, script.exitReason));
      }
    }

    /** Announces the restart, with the failure that caused it, and waits. */
    method ScheduleRestart(others: seq<Other>)
      requires Valid() && machine.worker == AttemptOver
      modifies this, mailbox
      ensures Valid() && machine.worker == Idle
      ensures mailbox.phase == C.Reconnecting && mailbox.restartCount == old(mailbox.restartCount) + 1
      ensures mailbox.error == if old(mailbox.error) == "" then UNEXPECTED_STOP else old(mailbox.error)
    {
      var failure := if mailbox.error == "" then UNEXPECTED_STOP else mailbox.error;
      mailbox.SetReconnecting(failure);
      Happens(RestartScheduled(failure));
      Meanwhile(others);
    }

    /** One attempt and, unless it was stopped, the restart after it. */
    method RunAttempt(script: Script) returns (stopped: bool)
      requires Valid() && machine.worker == Idle && mailbox.phase != C.Failed
      modifies this, mailbox
      ensures Valid() && stopped == (EndsStopped(script, frameSize, frameTimeout) || script.stopWhileWaiting)
      ensures mailbox.restartCount ==
        old(mailbox.restartCount) + if EndsStopped(script, frameSize, frameTimeout) then 0 else 1
      ensures if machine.worker == Idle then mailbox.phase != C.Failed else stopped && machine.worker == AttemptOver
    {
      PrepareAttempt();
      stopped := RunOnce(script);
      stopped := stopped || script.stopAfter;
      if !stopped {
        ScheduleRestart(script.others);
        stopped := script.stopWhileWaiting;
      }
    }

    /**
     The worker thread: attempt after attempt, a restart between any two, until it is stopped. It leaves an
     attempt out only after a stop; without one every attempt is made and followed by a restart.
     */
    method RunWorker(scripts: seq<Script>) returns (attempts: nat)
      requires Valid() && machine.worker == Idle && mailbox.phase != C.Failed
      modifies this, mailbox
      ensures Valid() && InStep(machine) && machine.worker == Finished && mailbox.phase == C.Stopped
      ensures attempts == AttemptsOf(scripts, frameSize, frameTimeout) <= |scripts|
      ensures mailbox.restartCount == old(mailbox.restartCount) + RestartsOf(scripts, frameSize, frameTimeout)
      ensures attempts < |scripts| ==> exists k :: 0 <= k <= attempts && !NoStop(scripts[k])
      ensures (forall k :: 0 <= k < |scripts| ==> NoStop(scripts[k])) ==>
        attempts == |scripts| && mailbox.restartCount == old(mailbox.restartCount) + |scripts|
    {
      attempts := 0;
      var stopped := false;
      ghost var made, restarts := AttemptsOf(scripts, frameSize, frameTimeout),
        RestartsOf(scripts, frameSize, frameTimeout);
      assert scripts[0..] == scripts;
      while attempts < |scripts| && !stopped && !scripts[attempts].stopBefore
        invariant Valid() && attempts <= |scripts|
        invariant if machine.worker == Idle then mailbox.phase != C.Failed else stopped && machine.worker == AttemptOver
        invariant made == attempts + if stopped then 0 else AttemptsOf(scripts[attempts..], frameSize, frameTimeout)
        invariant restarts == mailbox.restartCount - old(mailbox.restartCount) +
          if stopped then 0 else RestartsOf(scripts[attempts..], frameSize, frameTimeout)
        decreases |scripts| - attempts
      {
        assert scripts[attempts..][1..] == scripts[attempts + 1..];
        stopped := RunAttempt(scripts[attempts]);
        attempts := attempts + 1;
      }
      mailbox.SetStopped();
      Happens(StopRequested);
      ReachableIsInStep(machine);
      WorkerGoesOn(scripts, frameSize, frameTimeout);
    }
  }
}
