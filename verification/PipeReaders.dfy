/**
 The two loops that read from a camera child process: `ReadLines` splits a text stream into lines,
 `ReadExact` fills one frame. Both are proved to depend on the bytes only, not on how the operating
 system cuts them into reads.
 */
module PipeReaders {
  import opened Basics

  // ----- lines

  /** What one `read` gives: some bytes (none at the end of the file), an interruption or an error. */
  datatype ReadResult = Bytes(chunk: string) | Interrupted | Broken

  /** Everything read before the end of the file or an error; an exhausted script is the end of the file. */
  function StreamOf(script: seq<ReadResult>): string {
    if script == [] then ""
    else match script[0]
      case Bytes(chunk) => if chunk == "" then "" else chunk + StreamOf(script[1..])
      case Interrupted => StreamOf(script[1..])
      case Broken => ""
  }

  function IndexOf(text: string, c: char): (i: nat)
    ensures i <= |text| && c !in text[..i] && (i < |text| ==> text[i] == c)
  {
    if text == "" || text[0] == c then 0 else 1 + IndexOf(text[1..], c)
  }

  /** The newline split of a text; what follows the last newline counts only if it is not empty. */
  function Lines(text: string): seq<string>
    decreases |text|
  {
    var i := IndexOf(text, '\n');
    if i < |text| then [text[..i]] + Lines(text[i + 1..]) else if text == "" then [] else [text]
  }

  /** The lines, each with its newline. */
  function Terminated(lines: seq<string>): string {
    if lines == [] then "" else lines[0] + "\n" + Terminated(lines[1..])
  }

  /** `lines` are the complete lines of `text` followed by its unterminated rest, if there is one. */
  ghost predicate IsSplit(lines: seq<string>, text: string) {
    (forall i :: 0 <= i < |lines| ==> '\n' !in lines[i]) &&
    (text == Terminated(lines) ||
     (lines != [] && lines[|lines| - 1] != "" && text + "\n" == Terminated(lines)))
  }

  lemma FirstNewline(text: string, i: nat)
    requires i < |text| && text[i] == '\n' && '\n' !in text[..i]
    ensures IndexOf(text, '\n') == i
  {
    var j := IndexOf(text, '\n');
    assert forall k :: 0 <= k < i ==> text[k] == text[..i][k];
    assert forall k :: 0 <= k < j ==> text[k] == text[..j][k];
  }

  lemma LinesStep(line: string, rest: string)
    requires '\n' !in line
    ensures Lines(line + "\n" + rest) == [line] + Lines(rest)
  {
    var text := line + "\n" + rest;
    assert text[..|line|] == line;
    FirstNewline(text, |line|);
    assert text[|line| + 1..] == rest;
  }

  /** `Lines` splits, and nothing else does. */
  lemma {:induction false} LinesIsTheSplit(text: string, lines: seq<string>)
    ensures IsSplit(lines, text) <==> lines == Lines(text)
  {
    LinesSplits(text);
    if IsSplit(lines, text) {
      SplitIsLines(text, lines);
    }
  }

  lemma {:induction false} LinesSplits(text: string)
    ensures IsSplit(Lines(text), text)
    decreases |text|
  {
    var i := IndexOf(text, '\n');
    if i < |text| {
      LinesSplits(text[i + 1..]);
      SplitGrows(text[..i], text[i + 1..], Lines(text[i + 1..]));
      assert text == text[..i] + "\n" + text[i + 1..];
    } else if text != "" {
      assert text[..|text|] == text;
      assert Terminated([text]) == text + "\n" + Terminated([]);
    }
  }

  lemma SplitGrows(line: string, text: string, lines: seq<string>)
    requires '\n' !in line && IsSplit(lines, text)
    ensures IsSplit([line] + lines, line + "\n" + text)
  {
    var more := [line] + lines;
    assert more[1..] == lines;
    if text != Terminated(lines) {
      assert more[|more| - 1] == lines[|lines| - 1];
      assert line + "\n" + text + "\n" == line + "\n" + (text + "\n");
    }
  }

  lemma {:induction false} SplitIsLines(text: string, lines: seq<string>)
    requires IsSplit(lines, text)
    ensures lines == Lines(text)
    decreases |lines|
  {
    if lines != [] {
      var rest := lines[1..];
      assert Terminated(lines) == lines[0] + "\n" + Terminated(rest);
      if text == Terminated(lines) {
        SplitIsLines(Terminated(rest), rest);
        LinesStep(lines[0], Terminated(rest));
      } else if rest == [] {
        assert text + "\n" == lines[0] + "\n";
        assert text == (text + "\n")[..|text|] == lines[0];
        assert IndexOf(text, '\n') == |text|;
      } else {
        var tail := text[|lines[0]| + 1..];
        Drop(text, lines[0], Terminated(rest));
        assert rest[|rest| - 1] == lines[|lines| - 1];
        SplitIsLines(tail, rest);
        LinesStep(lines[0], tail);
      }
    }
  }

  lemma Drop(text: string, line: string, rest: string)
    requires text + "\n" == line + "\n" + rest && rest != ""
    ensures |text| > |line| && text == line + "\n" + text[|line| + 1..] && text[|line| + 1..] + "\n" == rest
  {
    assert text == (text + "\n")[..|text|] == (line + "\n" + rest)[..|text|];
    assert |text| == |line| + |rest|;
    assert text[|line| + 1..] + "\n" == (text + "\n")[|line| + 1..];
    assert (line + "\n" + rest)[|line| + 1..] == rest;
  }

  /** The first complete line of what is pending is the first line, whatever follows. */
  lemma FirstLine(consumed: seq<string>, pending: string, newline: nat, later: string)
    requires newline == IndexOf(pending, '\n') < |pending|
    ensures consumed + Lines(pending + later) ==
      consumed + [pending[..newline]] + Lines(pending[newline + 1..] + later)
  {
    var line, rest := pending[..newline], pending[newline + 1..] + later;
    assert pending + later == line + "\n" + rest;
    LinesStep(line, rest);
    assert consumed + ([line] + Lines(rest)) == consumed + [line] + Lines(rest);
  }

  /** Consumes the complete lines of what is pending; `later` is what has not been read yet. */
  method ConsumeLines(start: string, ghost later: string) returns (consumed: seq<string>, pending: string)
    ensures '\n' !in pending && Lines(start + later) == consumed + Lines(pending + later)
  {
    consumed, pending := [], start;
    var newline := IndexOf(pending, '\n');
    while newline < |pending|
      invariant newline == IndexOf(pending, '\n')
      invariant Lines(start + later) == consumed + Lines(pending + later)
      decreases |pending|
    {
      FirstLine(consumed, pending, newline, later);
      consumed := consumed + [pending[..newline]];
      pending := pending[newline + 1..];
      newline := IndexOf(pending, '\n');
    }
    assert pending[..|pending|] == pending;
  }

  lemma StreamStep(script: seq<ReadResult>, next: nat)
    requires next < |script|
    ensures StreamOf(script[next..]) ==
      match script[next]
      case Bytes(chunk) => if chunk == "" then "" else chunk + StreamOf(script[next + 1..])
      case Interrupted => StreamOf(script[next + 1..])
      case Broken => ""
  {
    assert script[next..][1..] == script[next + 1..];
  }

  lemma Regroup(a: string, b: string, c: string)
    ensures a + (b + c) == (a + b) + c
  {
  }

  lemma Unterminated(pending: string)
    requires '\n' !in pending
    ensures Lines(pending + "") == if pending == "" then [] else [pending]
  {
    assert pending + "" == pending && IndexOf(pending, '\n') == |pending|;
  }

  /** Delivers the lines of the stream, however it is cut into reads and wherever it is interrupted. */
  method ReadLines(script: seq<ReadResult>) returns (consumed: seq<string>)
    ensures consumed == Lines(StreamOf(script))
  {
    consumed := [];
    var pending := "";
    var next := 0;
    assert script[0..] == script && "" + StreamOf(script) == StreamOf(script);
    ghost var left := StreamOf(script);
    while next < |script|
      invariant next <= |script| && '\n' !in pending && left == StreamOf(script[next..])
      invariant Lines(StreamOf(script)) == consumed + Lines(pending + left)
      decreases |script| - next
    {
      StreamStep(script, next);
      var result := script[next];
      next := next + 1;
      if result.Bytes? && result.chunk == "" {
        break;
      }
      if result.Interrupted? {
        continue;
      }
      if result.Broken? {
        break;
      }
      left := StreamOf(script[next..]);
      Regroup(pending, result.chunk, left);
      var lines;
      lines, pending := ConsumeLines(pending + result.chunk, left);
      consumed := consumed + lines;
    }
    assert left == "";
    Unterminated(pending);
    if pending != "" {
      consumed := consumed + [pending];
    }
  }

  // ----- frames

  /**
   One turn of the frame loop: a stop request, a poll that times out (at some time), is interrupted
   or fails, or a readable pipe whose read is interrupted, fails, or offers up to `count` bytes.
   */
  datatype Turn =
    | StopSeen
    | Quiet(at: Time)
    | PollInterrupted
    | PollBroken
    | ReadInterrupted
    | ReadBroken
    | Offers(count: nat, at: Time)

  datatype Outcome = Complete | Stopped | EndOfFile | TimedOut | Failed

  /** How a frame read ends, how many bytes it took, and which turns it left. */
  datatype Reading = Reading(outcome: Outcome, taken: nat, rest: seq<Turn>)

  function Least(a: nat, b: nat, c: nat): nat {
    if a <= b && a <= c then a else if b <= c then b else c
  }

  /** Reading until `missing` bytes have come, out of `available`; an exhausted script is the end of the file. */
  function ReadingOf(turns: seq<Turn>, available: nat, missing: nat, lastProgress: Time, timeout: Time): Reading
    decreases |turns|
  {
    if missing == 0 then Reading(Complete, 0, turns)
    else if turns == [] then Reading(EndOfFile, 0, [])
    else
      var rest := turns[1..];
      match turns[0]
      case StopSeen => Reading(Stopped, 0, rest)
      case Quiet(at) =>
        if at - lastProgress >= timeout then Reading(TimedOut, 0, rest)
        else ReadingOf(rest, available, missing, lastProgress, timeout)
      case PollInterrupted => ReadingOf(rest, available, missing, lastProgress, timeout)
      case PollBroken => Reading(Failed, 0, rest)
      case ReadInterrupted => ReadingOf(rest, available, missing, lastProgress, timeout)
      case ReadBroken => Reading(Failed, 0, rest)
      case Offers(count, at) =>
        var got := Least(count, available, missing);
        if got == 0 then Reading(EndOfFile, 0, rest)
        else
          var more := ReadingOf(rest, available - got, missing - got, at, timeout);
          more.(taken := got + more.taken)
  }

  /** A frame read takes the whole frame or fails short of it: never a byte of the next frame. */
  lemma {:induction false} ReadingIsExact(
    turns: seq<Turn>, available: nat, missing: nat, lastProgress: Time, timeout: Time)
    ensures var r := ReadingOf(turns, available, missing, lastProgress, timeout);
      r.taken <= missing && r.taken <= available && |r.rest| <= |turns| &&
      (r.outcome == Complete <==> r.taken == missing) &&
      (r.outcome == Complete && missing > 0 ==> |r.rest| < |turns|)
    decreases |turns|
  {
    if missing > 0 && turns != [] {
      match turns[0]
      case Offers(count, at) =>
        var got := Least(count, available, missing);
        if got > 0 {
          ReadingIsExact(turns[1..], available - got, missing - got, at, timeout);
        }
      case _ => ReadingIsExact(turns[1..], available, missing, lastProgress, timeout);
    }
  }

  // ----- when a frame read completes

  /** How many bytes the turns offer. */
  function Offered(turns: seq<Turn>): nat {
    if turns == [] then 0
    else Offered(turns[..|turns| - 1]) + if turns[|turns| - 1].Offers? then turns[|turns| - 1].count else 0
  }

  /** When bytes last came. */
  function LastOffer(turns: seq<Turn>, start: Time): Time {
    if turns == [] then start
    else if turns[|turns| - 1].Offers? then turns[|turns| - 1].at else LastOffer(turns[..|turns| - 1], start)
  }

  /** Turn `turn` does not end the read, if bytes last came at `last`: interruptions never do. */
  predicate Harmless(turn: Turn, last: Time, timeout: Time) {
    match turn
    case Offers(count, _) => count > 0
    case Quiet(at) => at < last + timeout
    case PollInterrupted => true
    case ReadInterrupted => true
    case _ => false
  }

  predicate AllHarmless(turns: seq<Turn>, start: Time, timeout: Time) {
    forall i :: 0 <= i < |turns| ==> Harmless(turns[i], LastOffer(turns[..i], start), timeout)
  }

  /** After the first `n` turns the frame is there, and none of them ended the read. */
  predicate CompleteBy(turns: seq<Turn>, n: nat, missing: nat, start: Time, timeout: Time) {
    n <= |turns| && AllHarmless(turns[..n], start, timeout) && Offered(turns[..n]) >= missing
  }

  lemma {:induction false} FirstTurn(turn: Turn, turns: seq<Turn>, start: Time)
    ensures Offered([turn] + turns) == (if turn.Offers? then turn.count else 0) + Offered(turns)
    ensures LastOffer([turn] + turns, start) == LastOffer(turns, if turn.Offers? then turn.at else start)
    decreases |turns|
  {
    if turns == [] {
      assert [turn] + turns == [turn] && [turn][..0] == [];
    } else {
      var last := |turns| - 1;
      FirstTurn(turn, turns[..last], start);
      assert ([turn] + turns)[..|turns|] == [turn] + turns[..last];
    }
  }

  lemma HarmlessFirst(turn: Turn, turns: seq<Turn>, start: Time, timeout: Time)
    ensures AllHarmless([turn] + turns, start, timeout) <==>
      Harmless(turn, start, timeout) && AllHarmless(turns, if turn.Offers? then turn.at else start, timeout)
  {
    var all, next := [turn] + turns, if turn.Offers? then turn.at else start;
    assert all[0] == turn && all[..0] == [];
    forall i | 0 <= i < |turns|
      ensures all[i + 1] == turns[i] && LastOffer(all[..i + 1], start) == LastOffer(turns[..i], next)
    {
      FirstTurn(turn, turns[..i], start);
      assert all[..i + 1] == [turn] + turns[..i];
    }
    if AllHarmless(all, start, timeout) {
      forall i | 0 <= i < |turns| ensures Harmless(turns[i], LastOffer(turns[..i], next), timeout) {
        assert Harmless(all[i + 1], LastOffer(all[..i + 1], start), timeout);
      }
    }
    if Harmless(turn, start, timeout) && AllHarmless(turns, next, timeout) {
      forall i | 0 <= i < |all| ensures Harmless(all[i], LastOffer(all[..i], start), timeout) {
        if i > 0 {
          assert Harmless(turns[i - 1], LastOffer(turns[..i - 1], next), timeout);
        }
      }
    }
  }

  /** Completing by `n` turns, told by the first of them. */
  lemma CompleteStep(turns: seq<Turn>, n: nat, missing: nat, start: Time, timeout: Time)
    requires 0 < n <= |turns|
    ensures var turn := turns[0];
      CompleteBy(turns, n, missing, start, timeout) <==>
        Harmless(turn, start, timeout) && AllHarmless(turns[1..][..n - 1], NextStart(turn, start), timeout) &&
        (if turn.Offers? then turn.count else 0) + Offered(turns[1..][..n - 1]) >= missing
  {
    assert turns[..n] == [turns[0]] + turns[1..][..n - 1];
    FirstTurn(turns[0], turns[1..][..n - 1], start);
    HarmlessFirst(turns[0], turns[1..][..n - 1], start, timeout);
  }

  function NextStart(turn: Turn, start: Time): Time {
    if turn.Offers? then turn.at else start
  }

  /** How much of a frame is missing after one turn. */
  function StillMissing(turn: Turn, missing: nat): nat {
    if !turn.Offers? then missing else if turn.count >= missing then 0 else missing - turn.count
  }

  lemma CompleteRest(turns: seq<Turn>, n: nat, missing: nat, start: Time, timeout: Time)
    requires 0 < n <= |turns|
    ensures CompleteBy(turns, n, missing, start, timeout) <==>
      Harmless(turns[0], start, timeout) &&
      CompleteBy(turns[1..], n - 1, StillMissing(turns[0], missing), NextStart(turns[0], start), timeout)
  {
    CompleteStep(turns, n, missing, start, timeout);
  }

  ghost predicate Completes(turns: seq<Turn>, missing: nat, start: Time, timeout: Time) {
    exists n: nat :: CompleteBy(turns, n, missing, start, timeout)
  }

  lemma CompletesFirst(turns: seq<Turn>, missing: nat, start: Time, timeout: Time)
    requires turns != [] && missing > 0
    ensures Completes(turns, missing, start, timeout) <==>
      Harmless(turns[0], start, timeout) &&
      Completes(turns[1..], StillMissing(turns[0], missing), NextStart(turns[0], start), timeout)
  {
    var less, next := StillMissing(turns[0], missing), NextStart(turns[0], start);
    if Completes(turns, missing, start, timeout) {
      var n: nat :| CompleteBy(turns, n, missing, start, timeout);
      assert n > 0 by {
        assert turns[..0] == [];
      }
      CompleteRest(turns, n, missing, start, timeout);
      assert CompleteBy(turns[1..], n - 1, less, next, timeout);
    }
    if Harmless(turns[0], start, timeout) && Completes(turns[1..], less, next, timeout) {
      var n: nat :| CompleteBy(turns[1..], n, less, next, timeout);
      CompleteRest(turns, n + 1, missing, start, timeout);
    }
  }

  /**
   A frame read completes exactly if the pipe holds a whole frame and the turns offer it before anything ends
   the read: a stop, an error, an empty offer, or a quiet turn that comes the time-out or more after bytes
   last came.
   */
  lemma {:induction false} ReadCompletesIff(turns: seq<Turn>, available: nat, missing: nat, start: Time, timeout: Time)
    ensures ReadingOf(turns, available, missing, start, timeout).outcome == Complete <==>
      missing <= available && Completes(turns, missing, start, timeout)
    decreases |turns|
  {
    if missing == 0 {
      assert turns[..0] == [] && CompleteBy(turns, 0, missing, start, timeout);
    } else if turns == [] {
      assert forall n: nat :: n <= 0 ==> turns[..n] == [];
    } else {
      CompletesFirst(turns, missing, start, timeout);
      match turns[0]
      case Offers(count, at) =>
        var got := Least(count, available, missing);
        if got > 0 {
          ReadCompletesIff(turns[1..], available - got, missing - got, at, timeout);
        }
      case _ => ReadCompletesIff(turns[1..], available, missing, start, timeout);
    }
  }

  /** Turn `turn` ends a read with `outcome`, if bytes last came at `last` and `left` bytes are in the pipe. */
  predicate EndsWith(turn: Turn, last: Time, left: nat, timeout: Time, outcome: Outcome) {
    match turn
    case StopSeen => outcome == Stopped
    case Quiet(at) => at >= last + timeout ==> outcome == TimedOut
    case PollBroken => outcome == Failed
    case ReadBroken => outcome == Failed
    case Offers(count, _) => count == 0 || left == 0 ==> outcome == EndOfFile
    case _ => true
  }

  lemma HarmNow(turns: seq<Turn>, available: nat, missing: nat, start: Time, timeout: Time)
    requires turns != [] && missing > 0
    ensures EndsWith(turns[0], start, available, timeout,
                     ReadingOf(turns, available, missing, start, timeout).outcome)
  {
  }

  lemma HarmLater(turns: seq<Turn>, available: nat, missing: nat, start: Time, timeout: Time)
    requires turns != [] && Harmless(turns[0], start, timeout)
    requires turns[0].Offers? ==> turns[0].count < missing && turns[0].count <= available
    requires missing > 0
    ensures var got := if turns[0].Offers? then turns[0].count else 0;
      ReadingOf(turns, available, missing, start, timeout).outcome ==
      ReadingOf(turns[1..], available - got, missing - got, NextStart(turns[0], start), timeout).outcome
  {
  }

  lemma CutFirst(turns: seq<Turn>, n: nat, start: Time, timeout: Time) returns (got: nat)
    requires 0 < n <= |turns| && AllHarmless(turns[..n], start, timeout)
    ensures got == (if turns[0].Offers? then turns[0].count else 0) && Harmless(turns[0], start, timeout)
    ensures var rest := turns[1..][..n - 1];
      Offered(turns[..n]) == got + Offered(rest) &&
      LastOffer(turns[..n], start) == LastOffer(rest, NextStart(turns[0], start)) &&
      AllHarmless(rest, NextStart(turns[0], start), timeout)
  {
    var turn, rest := turns[0], turns[1..][..n - 1];
    got := if turn.Offers? then turn.count else 0;
    assert turns[..n] == [turn] + rest;
    FirstTurn(turn, rest, start);
    HarmlessFirst(turn, rest, start, timeout);
  }

  /** The first turn that ends the read decides its outcome. */
  lemma {:induction false} HarmDecides(turns: seq<Turn>, n: nat, available: nat, missing: nat, start: Time,
                                       timeout: Time)
    requires n < |turns| && AllHarmless(turns[..n], start, timeout)
    requires Offered(turns[..n]) < missing && Offered(turns[..n]) <= available
    ensures EndsWith(turns[n], LastOffer(turns[..n], start), available - Offered(turns[..n]), timeout,
                     ReadingOf(turns, available, missing, start, timeout).outcome)
    decreases n
  {
    if n == 0 {
      HarmNow(turns, available, missing, start, timeout);
    } else {
      var got := CutFirst(turns, n, start, timeout);
      HarmLater(turns, available, missing, start, timeout);
      HarmDecides(turns[1..], n - 1, available - got, missing - got, NextStart(turns[0], start), timeout);
      assert turns[1..][n - 1] == turns[n];
    }
  }

  /** Only a stop that is seen stops a read. */
  lemma {:induction false} StoppedWasSeen(turns: seq<Turn>, available: nat, missing: nat, start: Time, timeout: Time)
    requires ReadingOf(turns, available, missing, start, timeout).outcome == Stopped
    ensures StopSeen in turns
    decreases |turns|
  {
    var turn := turns[0];
    if turn.Offers? {
      var got := Least(turn.count, available, missing);
      StoppedWasSeen(turns[1..], available - got, missing - got, turn.at, timeout);
    } else if turn.Quiet? || turn.PollInterrupted? || turn.ReadInterrupted? {
      StoppedWasSeen(turns[1..], available, missing, start, timeout);
    }
  }

  /** The read end of a pipe: everything the child ever writes, and how much of it was read. */
  class Pipe {
    const stream: seq<bv8>
    var position: nat

    ghost predicate Valid()
      reads this
    {
      position <= |stream|
    }

    constructor (stream: seq<bv8>)
      ensures Valid() && this.stream == stream && position == 0
    {
      this.stream, position := stream, 0;
    }

    method Read(wanted: nat, offered: nat) returns (bytes: seq<bv8>)
      requires Valid()
      modifies this
      ensures Valid() && |bytes| == Least(offered, |stream| - old(position), wanted)
      ensures position == old(position) + |bytes| && bytes == stream[old(position)..position]
    {
      var count := Least(offered, |stream| - position, wanted);
      bytes := stream[position..position + count];
      position := position + count;
    }
  }

  /** Fills `destination` from the pipe. */
  method ReadExact(pipe: Pipe, destination: array<bv8>, turns: seq<Turn>, start: Time, timeout: Time)
    returns (outcome: Outcome, rest: seq<Turn>)
    requires pipe.Valid()
    modifies pipe, destination
    ensures pipe.Valid() && old(pipe.position) <= pipe.position <= old(pipe.position) + destination.Length
    ensures ReadingOf(turns, |pipe.stream| - old(pipe.position), destination.Length, start, timeout) ==
      Reading(outcome, pipe.position - old(pipe.position), rest)
    ensures destination[..pipe.position - old(pipe.position)] == pipe.stream[old(pipe.position)..pipe.position]
  {
    var offset: nat, lastProgress := 0, start;
    rest := turns;
    ghost var begin := pipe.position;
    ghost var all := ReadingOf(turns, |pipe.stream| - begin, destination.Length, start, timeout);
    while offset < destination.Length
      invariant pipe.Valid() && offset <= destination.Length && pipe.position == begin + offset
      invariant var r := ReadingOf(rest, |pipe.stream| - pipe.position, destination.Length - offset, lastProgress,
        timeout);
        all == r.(taken := offset + r.taken)
      invariant destination[..offset] == pipe.stream[begin..pipe.position]
      decreases |rest|
    {
      if rest == [] {
        return EndOfFile, [];
      }
      var turn := rest[0];
      rest := rest[1..];
      match turn
      case StopSeen => return Stopped, rest;
      case Quiet(at) =>
        if at - lastProgress >= timeout {
          return TimedOut, rest;
        }
      case PollInterrupted =>
      case PollBroken => return Failed, rest;
      case ReadInterrupted =>
      case ReadBroken => return Failed, rest;
      case Offers(count, at) =>
        var got := ReadSome(pipe, destination, offset, count, begin);
        if got == 0 {
          return EndOfFile, rest;
        }
        offset := offset + got;
        lastProgress := at;
    }
    outcome := Complete;
  }

  /** One read, stored where the last one ended. */
  method ReadSome(pipe: Pipe, destination: array<bv8>, offset: nat, count: nat, ghost begin: nat) returns (got: nat)
    requires pipe.Valid() && offset < destination.Length && pipe.position == begin + offset
    requires destination[..offset] == pipe.stream[begin..pipe.position]
    modifies pipe, destination
    ensures pipe.Valid() && pipe.position == begin + offset + got
    ensures got == Least(count, |pipe.stream| - old(pipe.position), destination.Length - offset)
    ensures destination[..offset + got] == pipe.stream[begin..pipe.position]
  {
    var bytes := pipe.Read(destination.Length - offset, count);
    got := |bytes|;
    Store(destination, offset, bytes);
    SliceGrows(pipe.stream, begin, begin + offset, pipe.position);
  }

  lemma SliceGrows(stream: seq<bv8>, begin: nat, middle: nat, end: nat)
    requires begin <= middle <= end <= |stream|
    ensures stream[begin..middle] + stream[middle..end] == stream[begin..end]
  {
  }

  method Store(destination: array<bv8>, offset: nat, bytes: seq<bv8>)
    requires offset + |bytes| <= destination.Length
    modifies destination
    ensures destination[..offset + |bytes|] == old(destination[..offset]) + bytes
  {
    for i := 0 to |bytes|
      invariant destination[..offset] == old(destination[..offset])
      invariant destination[offset..offset + i] == bytes[..i]
    {
      destination[offset + i] := bytes[i];
    }
  }

  /**
   The frame loop of one attempt: it reads frame after frame until one read does not complete.
   Frame k is exactly the k-th frame-sized slice of the stream, whenever each read is started.
   */
  method ReadFrames(pipe: Pipe, size: nat, turns: seq<Turn>, startOf: nat -> Time, timeout: Time)
    returns (frames: seq<seq<bv8>>, outcome: Outcome)
    requires size > 0 && pipe.Valid() && pipe.position == 0
    modifies pipe
    ensures pipe.Valid() && outcome != Complete
    ensures |frames| * size <= pipe.position < (|frames| + 1) * size
    ensures forall k :: 0 <= k < |frames| ==> SliceIs(pipe.stream, k, size, frames[k])
  {
    frames, outcome := [], Complete;
    var rest := turns;
    while outcome == Complete
      invariant pipe.Valid()
      invariant if outcome == Complete then pipe.position == |frames| * size
                else |frames| * size <= pipe.position < (|frames| + 1) * size
      invariant forall k :: 0 <= k < |frames| ==> SliceIs(pipe.stream, k, size, frames[k])
      decreases outcome == Complete, |rest|
    {
      var destination := new bv8[size];
      ghost var before := pipe.position;
      var start := startOf(|frames|);
      ReadingIsExact(rest, |pipe.stream| - before, size, start, timeout);
      outcome, rest := ReadExact(pipe, destination, rest, start, timeout);
      if outcome == Complete {
        assert destination[..] == destination[..size] == pipe.stream[before..before + size];
        assert SliceIs(pipe.stream, |frames|, size, destination[..]);
        frames := frames + [destination[..]];
        assert |frames| * size == before + size;
      } else {
        assert (|frames| + 1) * size == before + size;
      }
    }
  }

  ghost predicate SliceIs(stream: seq<bv8>, k: nat, size: nat, frame: seq<bv8>) {
    k * size + size <= |stream| && frame == stream[k * size..k * size + size]
  }
}
