/** The rate limit on preview frames: one budget a stream, spent only by frames that are taken over. */
module HttpCameraPreviewServer {
  import opened Basics

  const MAXIMUM_FPS := 60
  const MICROSECOND: Time := 1_000
  const MICROSECONDS_PER_SECOND := 1_000_000
  const STREAM_COUNT := 2

  datatype Frame = Frame(sequence: nat, width: nat, height: nat, size: nat)

  datatype PreviewFrame = PreviewFrame(sequence: nat, width: nat, height: nat, publishedAt: Time)

  /** The bytes a YUV 4:2:0 picture takes. */
  function Yuv420Size(width: nat, height: nat): nat {
    width * height + width * height / 2
  }

  predicate WellFormed(f: Frame) {
    f.width != 0 && f.height != 0 && f.width % 2 == 0 && f.height % 2 == 0 && Yuv420Size(f.width, f.height) <= f.size
  }

  /** The shortest time between two frames: a whole number of microseconds, rounded down. */
  function FrameInterval(fps: nat): Option<Time> {
    if fps == 0 || fps > MAXIMUM_FPS then None else Some(MICROSECONDS_PER_SECOND / fps * MICROSECOND)
  }

  // ----- publish runs

  datatype Publication = Publication(stream: nat, frame: Frame, at: Time)

  /** When each stream last took a frame over. */
  type Budgets = s: seq<Option<Time>> | |s| == STREAM_COUNT witness [None, None]

  const UNSPENT: Budgets := [None, None]

  predicate Takes(budgets: Budgets, p: Publication, interval: Time) {
    p.stream < STREAM_COUNT && WellFormed(p.frame) &&
    (budgets[p.stream].Some? ==> p.at - budgets[p.stream].value >= interval)
  }

  function Spend(budgets: Budgets, p: Publication, interval: Time): Budgets {
    if Takes(budgets, p, interval) then budgets[p.stream := Some(p.at)] else budgets
  }

  function After(run: seq<Publication>, interval: Time): Budgets {
    if run == [] then UNSPENT else Spend(After(run[..|run| - 1], interval), run[|run| - 1], interval)
  }

  /** The times at which a run's frames were taken over on one stream. */
  function Taken(run: seq<Publication>, stream: nat, interval: Time): seq<Time> {
    if run == [] then []
    else
      var p := run[|run| - 1];
      Taken(run[..|run| - 1], stream, interval) +
      if p.stream == stream && Takes(After(run[..|run| - 1], interval), p, interval) then [p.at] else []
  }

  predicate Spaced(times: seq<Time>, interval: Time) {
    forall i :: 0 < i < |times| ==> times[i] - times[i - 1] >= interval
  }

  lemma {:induction false} TakenIsSpaced(run: seq<Publication>, stream: nat, interval: Time)
    requires stream < STREAM_COUNT
    ensures var times := Taken(run, stream, interval);
      Spaced(times, interval) &&
      After(run, interval)[stream] == if times == [] then None else Some(times[|times| - 1])
  {
    if run != [] {
      TakenIsSpaced(run[..|run| - 1], stream, interval);
    }
  }

  lemma {:induction false} SpacedApart(times: seq<Time>, interval: Time, i: nat, j: nat)
    requires Spaced(times, interval) && i <= j < |times|
    ensures times[j] - times[i] >= (j - i) * interval
    decreases j
  {
    if i < j {
      SpacedApart(times, interval, i, j - 1);
      assert (j - i) * interval == (j - 1 - i) * interval + interval;
    }
  }

  /** Rounding the interval down costs at most one frame a second. */
  lemma IntervalsFillASecond(fps: nat, k: nat)
    requires 1 <= fps <= MAXIMUM_FPS && k > fps
    ensures k * FrameInterval(fps).value > SECOND
  {
    var q := MICROSECONDS_PER_SECOND / fps;
    assert MICROSECONDS_PER_SECOND - fps < fps * q <= MICROSECONDS_PER_SECOND;
    LargeQuotient(fps, q);
    assert (fps + 1) * q == fps * q + q;
    Scaled(fps + 1, k, q * MICROSECOND);
    assert (fps + 1) * (q * MICROSECOND) == ((fps + 1) * q) * MICROSECOND;
  }

  lemma LargeQuotient(fps: nat, q: nat)
    requires 1 <= fps <= MAXIMUM_FPS && MICROSECONDS_PER_SECOND - fps < fps * q
    ensures q > fps
  {
    Scaled(fps, MAXIMUM_FPS, q);
  }

  lemma Scaled(a: nat, b: nat, scale: nat)
    requires a <= b
    ensures a * scale <= b * scale
  {
    assert (b - a) * scale >= 0;
  }

  /**
   The limit: whatever is published, and when, no closed window of one second contains more than
   fps + 1 frames taken over on one stream.
   */
  lemma AtMostOneMoreThanFps(run: seq<Publication>, stream: nat, fps: nat, i: nat, j: nat)
    requires stream < STREAM_COUNT && 1 <= fps <= MAXIMUM_FPS
    requires var times := Taken(run, stream, FrameInterval(fps).value);
      i <= j < |times| && times[j] - times[i] <= SECOND
    ensures j - i + 1 <= fps + 1
  {
    var interval := FrameInterval(fps).value;
    TakenIsSpaced(run, stream, interval);
    SpacedApart(Taken(run, stream, interval), interval, i, j);
    if j - i > fps {
      IntervalsFillASecond(fps, j - i);
      assert false;
    }
  }

  const PICTURE := Frame(1, 2, 2, 6)

  /** A stream fed at exactly the interval. */
  function SteadyRun(interval: Time, count: nat): seq<Publication> {
    seq(count, k requires 0 <= k < count => Publication(0, PICTURE, k * interval))
  }

  lemma {:induction false} SteadyRunIsTaken(interval: Time, count: nat)
    requires interval >= 0
    ensures Taken(SteadyRun(interval, count), 0, interval) == seq(count, k requires 0 <= k < count => k * interval)
  {
    var run := SteadyRun(interval, count);
    if count > 0 {
      SteadyRunIsTaken(interval, count - 1);
      TakenIsSpaced(run[..count - 1], 0, interval);
      assert run[..count - 1] == SteadyRun(interval, count - 1);
      if count > 1 {
        assert (count - 1) * interval - (count - 2) * interval == interval;
      }
    }
  }

  lemma IntervalsFit(fps: nat)
    requires 1 <= fps <= MAXIMUM_FPS
    ensures fps * FrameInterval(fps).value <= SECOND
  {
    var q := MICROSECONDS_PER_SECOND / fps;
    assert fps * q <= MICROSECONDS_PER_SECOND;
    assert fps * (q * MICROSECOND) == (fps * q) * MICROSECOND;
  }

  /** The bound is exact: for every frame rate, fps + 1 frames do fit into one second. */
  lemma FpsPlusOneIsReached(fps: nat) returns (run: seq<Publication>)
    requires 1 <= fps <= MAXIMUM_FPS
    ensures var times := Taken(run, 0, FrameInterval(fps).value);
      |times| == fps + 1 && times[fps] - times[0] <= SECOND
  {
    var interval := FrameInterval(fps).value;
    run := SteadyRun(interval, fps + 1);
    SteadyRunIsTaken(interval, fps + 1);
    IntervalsFit(fps);
  }

  /** A frame that is not taken over consumes nothing: leaving it out changes no budget, now or later. */
  lemma {:induction false} RejectedFramesAreFree(
    before: seq<Publication>, p: Publication, later: seq<Publication>, interval: Time)
    requires !Takes(After(before, interval), p, interval)
    ensures After(before + [p] + later, interval) == After(before + later, interval)
    ensures forall stream :: Taken(before + [p] + later, stream, interval) == Taken(before + later, stream, interval)
    decreases |later|
  {
    if later == [] {
      assert (before + [p] + later)[..|before|] == before == before + later;
    } else {
      var last := |later| - 1;
      RejectedFramesAreFree(before, p, later[..last], interval);
      assert (before + [p] + later)[..|before| + 1 + last] == before + [p] + later[..last];
      assert (before + later)[..|before| + last] == before + later[..last];
    }
  }

  lemma OneMore(run: seq<Publication>, p: Publication, stream: nat, interval: Time)
    ensures After(run + [p], interval) == Spend(After(run, interval), p, interval)
    ensures Taken(run + [p], stream, interval) == Taken(run, stream, interval) +
      if p.stream == stream && Takes(After(run, interval), p, interval) then [p.at] else []
  {
    assert (run + [p])[..|run|] == run;
  }

  /**
   A frame is taken over exactly if it holds an even-sized picture and comes an interval or more after the
   last one taken over on its stream.
   */
  lemma TakenWhenDue(run: seq<Publication>, p: Publication, interval: Time)
    requires p.stream < STREAM_COUNT
    ensures var times := Taken(run, p.stream, interval);
      Taken(run + [p], p.stream, interval) == times +
        if HoldsPicture(p.frame) && (times == [] || p.at >= times[|times| - 1] + interval) then [p.at] else []
  {
    OneMore(run, p, p.stream, interval);
    TakenIsSpaced(run, p.stream, interval);
    PictureIsWellFormed(p.frame);
  }

  /** Width and height are even and not 0, and there are three bytes for every two pixels. */
  predicate HoldsPicture(f: Frame) {
    f.width > 0 && f.height > 0 && f.width % 2 == 0 && f.height % 2 == 0 && 3 * (f.width * f.height) <= 2 * f.size
  }

  lemma PictureIsWellFormed(f: Frame)
    ensures HoldsPicture(f) <==> WellFormed(f)
  {
    if f.width % 2 == 0 {
      EvenArea(f.width, f.height);
    }
  }

  lemma EvenArea(width: nat, height: nat)
    requires width % 2 == 0
    ensures width * height % 2 == 0
  {
    var half := width / 2;
    assert width * height == 2 * (half * height);
  }

  /** The interval is the longest whole number of microseconds of which `fps` fit into a second. */
  lemma IntervalIsRoundedDown(fps: nat)
    ensures FrameInterval(fps).Some? <==> 1 <= fps <= 60
    ensures 1 <= fps <= 60 ==>
      var interval := FrameInterval(fps).value;
      interval % MICROSECOND == 0 && fps * interval <= SECOND < fps * (interval + MICROSECOND)
  {
    if 1 <= fps <= 60 {
      IntervalsFit(fps);
      var q := MICROSECONDS_PER_SECOND / fps;
      assert fps * (q + 1) > MICROSECONDS_PER_SECOND;
      assert fps * (q * MICROSECOND + MICROSECOND) == (fps * (q + 1)) * MICROSECOND;
    }
  }

  function Only(run: seq<Publication>, stream: nat): seq<Publication> {
    if run == [] then []
    else Only(run[..|run| - 1], stream) + if run[|run| - 1].stream == stream then [run[|run| - 1]] else []
  }

  /** One stream never affects the other. */
  lemma {:induction false} StreamsAreIndependent(run: seq<Publication>, stream: nat, interval: Time)
    requires stream < STREAM_COUNT
    ensures After(Only(run, stream), interval)[stream] == After(run, interval)[stream]
    ensures Taken(Only(run, stream), stream, interval) == Taken(run, stream, interval)
  {
    if run != [] {
      var last := |run| - 1;
      StreamsAreIndependent(run[..last], stream, interval);
      var p := run[last];
      OneMore(run[..last], p, stream, interval);
      assert run[..last] + [p] == run;
      if p.stream == stream {
        OneMore(Only(run[..last], stream), p, stream, interval);
        assert Only(run, stream) == Only(run[..last], stream) + [p];
      } else {
        assert Only(run, stream) == Only(run[..last], stream);
      }
    }
  }

  // ----- the server

  class HttpCameraPreviewServer {
    const interval: Time
    const latestFrames: array<Option<PreviewFrame>>
    const lastPublishedAt: array<Option<Time>>

    ghost predicate Valid() {
      latestFrames.Length == STREAM_COUNT && lastPublishedAt.Length == STREAM_COUNT && interval >= 0
    }

    ghost function Spent(): Budgets
      requires Valid()
      reads lastPublishedAt
    {
      lastPublishedAt[..]
    }

    constructor (fps: nat)
      requires FrameInterval(fps).Some?
      ensures Valid() && interval == FrameInterval(fps).value && Spent() == UNSPENT
      ensures fresh(latestFrames) && fresh(lastPublishedAt)
    {
      interval := MICROSECONDS_PER_SECOND / fps * MICROSECOND;
      latestFrames := new Option<PreviewFrame>[STREAM_COUNT](_ => None);
      lastPublishedAt := new Option<Time>[STREAM_COUNT](_ => None);
    }

    method Publish(stream: nat, frame: Frame, now: Time)
      requires Valid() && stream < STREAM_COUNT
      modifies latestFrames, lastPublishedAt
      ensures Spent() == Spend(old(Spent()), Publication(stream, frame, now), interval)
      ensures latestFrames[..] ==
        if Takes(old(Spent()), Publication(stream, frame, now), interval)
        then old(latestFrames[..])[stream := Some(PreviewFrame(frame.sequence, frame.width, frame.height, now))]
        else old(latestFrames[..])
    {
      var last := if lastPublishedAt[stream].Some? then lastPublishedAt[stream].value else now - interval;
      if now - last < interval {
        return;
      }
      var pixelCount := frame.width * frame.height;
      var yuv420Size := pixelCount + pixelCount / 2;
      if frame.width == 0 || frame.height == 0 || frame.width % 2 != 0 || frame.height % 2 != 0 ||
         yuv420Size > frame.size {
        return;
      }
      latestFrames[stream] := Some(PreviewFrame(frame.sequence, frame.width, frame.height, now));
      lastPublishedAt[stream] := Some(now);
    }
  }
}
