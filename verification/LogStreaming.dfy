/** Streams lines into log segments, rolling to a new segment at the file limit and rotating after every line. */
module LogStreaming {
  import opened Basics
  import opened LogRotation

  // ----- segment names

  function DigitChar(d: nat): char
    requires d < 10
  {
    '0' + d as char
  }

  function Decimal(n: nat): (s: string) {
    if n < 10 then [DigitChar(n)] else Decimal(n / 10) + [DigitChar(n % 10)]
  }

  /** The number written with at least three digits. */
  function ThreeDigits(n: nat): string {
    if n < 10 then "00" + Decimal(n) else if n < 100 then "0" + Decimal(n) else Decimal(n)
  }

  function SegmentName(stem: string, sequence: nat): string {
    stem + (if sequence == 0 then "" else "-" + ThreeDigits(sequence)) + SUFFIX
  }

  function Value(s: string): int {
    if s == "" then 0 else 10 * Value(s[..|s| - 1]) + (s[|s| - 1] as int - '0' as int)
  }

  lemma {:induction false} DecimalValue(n: nat)
    ensures Value(Decimal(n)) == n
  {
    if n < 10 {
      assert Decimal(n)[..0] == "";
    } else {
      DecimalValue(n / 10);
      assert Decimal(n)[..|Decimal(n)| - 1] == Decimal(n / 10);
    }
  }

  lemma {:induction false} LeadingZero(s: string)
    ensures Value("0" + s) == Value(s)
  {
    if s == "" {
      assert ("0" + s)[..0] == "";
    } else {
      LeadingZero(s[..|s| - 1]);
      assert ("0" + s)[..|s|] == "0" + s[..|s| - 1];
    }
  }

  lemma ThreeDigitsValue(n: nat)
    ensures Value(ThreeDigits(n)) == n
  {
    DecimalValue(n);
    LeadingZero(Decimal(n));
    LeadingZero("0" + Decimal(n));
    assert "00" + Decimal(n) == "0" + ("0" + Decimal(n));
  }

  /** No name is ever used twice. */
  lemma SegmentNamesDiffer(stem: string, a: nat, b: nat)
    ensures SegmentName(stem, a) == SegmentName(stem, b) ==> a == b
  {
    var m := |stem|;
    var na, nb := SegmentName(stem, a), SegmentName(stem, b);
    if na == nb {
      assert na[m..|na| - |SUFFIX|] == if a == 0 then "" else "-" + ThreeDigits(a);
      assert nb[m..|nb| - |SUFFIX|] == if b == 0 then "" else "-" + ThreeDigits(b);
      if a > 0 && b > 0 {
        assert ThreeDigits(a) == ("-" + ThreeDigits(a))[1..] == ("-" + ThreeDigits(b))[1..] == ThreeDigits(b);
        ThreeDigitsValue(a);
        ThreeDigitsValue(b);
      }
    }
  }

  // ----- what is written

  /** A segment as its writer sees it, whether or not its directory entry still exists. */
  datatype Segment = Segment(name: string, content: Bytes)

  function Concat(lines: seq<Bytes>): Bytes {
    if lines == [] then [] else Concat(lines[..|lines| - 1]) + lines[|lines| - 1]
  }

  function Contents(segments: seq<Segment>): Bytes {
    if segments == [] then [] else Contents(segments[..|segments| - 1]) + segments[|segments| - 1].content
  }

  predicate NeedsRoll(segments: seq<Segment>, line: Bytes, maxFileBytes: int) {
    segments == [] ||
    var size := |segments[|segments| - 1].content|;
    size > 0 && size + |line| > maxFileBytes
  }

  /** The segments after one more line; `name` is that of the segment a roll would open. */
  function Extended(segments: seq<Segment>, line: Bytes, maxFileBytes: int, name: string): seq<Segment> {
    if NeedsRoll(segments, line, maxFileBytes) then segments + [Segment(name, line)]
    else
      var last := segments[|segments| - 1];
      segments[..|segments| - 1] + [last.(content := last.content + line)]
  }

  lemma ContentsExtended(segments: seq<Segment>, line: Bytes, maxFileBytes: int, name: string)
    ensures Contents(Extended(segments, line, maxFileBytes, name)) == Contents(segments) + line
  {
    var more := Extended(segments, line, maxFileBytes, name);
    assert more[..|more| - 1] == if NeedsRoll(segments, line, maxFileBytes)
      then segments else segments[..|segments| - 1];
  }

  /** Every segment is within the file limit, or holds a single line. */
  ghost predicate WithinLimit(segments: seq<Segment>, lines: seq<Bytes>, maxFileBytes: int) {
    forall k :: 0 <= k < |segments| ==> |segments[k].content| <= maxFileBytes || segments[k].content in lines
  }

  lemma ExtendedWithinLimit(segments: seq<Segment>, lines: seq<Bytes>, line: Bytes, maxFileBytes: int, name: string)
    requires WithinLimit(segments, lines, maxFileBytes)
    ensures WithinLimit(Extended(segments, line, maxFileBytes, name), lines + [line], maxFileBytes)
  {
    assert line in lines + [line];
    if !NeedsRoll(segments, line, maxFileBytes) {
      var last := segments[|segments| - 1];
      if |last.content| == 0 {
        assert last.content + line == line;
      }
    }
  }

  /** A segment is not empty when the next is opened, and the two would not have fit into one file. */
  ghost predicate Packed(segments: seq<Segment>, maxFileBytes: int) {
    forall k :: 0 < k < |segments| ==> DoNotFit(segments[k - 1], segments[k], maxFileBytes)
  }

  predicate DoNotFit(first: Segment, second: Segment, maxFileBytes: int) {
    first.content != [] && |first.content| + |second.content| > maxFileBytes
  }

  lemma ExtendedIsPacked(segments: seq<Segment>, line: Bytes, maxFileBytes: int, name: string)
    requires Packed(segments, maxFileBytes)
    ensures Packed(Extended(segments, line, maxFileBytes, name), maxFileBytes)
  {
  }

  /** The segments' names are those of strictly increasing sequence numbers below `next`. */
  ghost predicate NamedInOrder(segments: seq<Segment>, numbers: seq<nat>, stem: string, next: nat) {
    |numbers| == |segments| &&
    (forall k :: 0 <= k < |segments| ==> numbers[k] < next && segments[k].name == SegmentName(stem, numbers[k])) &&
    (forall j, k :: 0 <= j < k < |segments| ==> numbers[j] < numbers[k])
  }

  lemma NamesAreDistinct(segments: seq<Segment>, numbers: seq<nat>, stem: string, next: nat)
    requires NamedInOrder(segments, numbers, stem, next)
    ensures forall j, k :: 0 <= j < k < |segments| ==> segments[j].name != segments[k].name
    ensures forall n, k :: n >= next && 0 <= k < |segments| ==> SegmentName(stem, n) != segments[k].name
  {
    forall j, k | 0 <= j < k < |segments| ensures segments[j].name != segments[k].name {
      SegmentNamesDiffer(stem, numbers[j], numbers[k]);
    }
    forall n: nat, k | n >= next && 0 <= k < |segments| ensures SegmentName(stem, n) != segments[k].name {
      SegmentNamesDiffer(stem, n, numbers[k]);
    }
  }

  ghost predicate IsSegment(segments: seq<Segment>, name: string, content: Bytes) {
    exists k :: 0 <= k < |segments| && segments[k].name == name && segments[k].content == content
  }

  /**
   Whatever is in the directory is either a file that was there before, untouched, or one of the
   segments, whole.
   */
  ghost predicate OnlyOurs(files: map<string, File>, before: map<string, File>, segments: seq<Segment>) {
    forall name :: name in files ==>
      (name in before && files[name] == before[name]) || IsSegment(segments, name, files[name].content)
  }

  // ----- the stream

  /** Write times that run strictly upwards from everything already in the directory. */
  ghost predicate TimesAreNew(times: seq<int>, files: map<string, File>) {
    (forall i, j :: 0 <= i < j < |times| ==> times[i] < times[j]) &&
    (forall i, name :: 0 <= i < |times| && name in files ==> files[name].modified < times[i])
  }

  ghost predicate OlderThan(files: map<string, File>, time: int) {
    forall name :: name in files ==> files[name].modified < time
  }

  /** The directory entries of the segments, as far as they still exist, hold the segments. */
  ghost predicate EntriesMatch(files: map<string, File>, segments: seq<Segment>) {
    forall k :: 0 <= k < |segments| && segments[k].name in files ==>
      files[segments[k].name].content == segments[k].content
  }

  ghost predicate Ledger(files: map<string, File>, before: map<string, File>, segments: seq<Segment>) {
    OnlyOurs(files, before, segments) && EntriesMatch(files, segments)
  }

  ghost predicate NamesDistinct(segments: seq<Segment>) {
    forall j, k :: 0 <= j < k < |segments| ==> segments[j].name != segments[k].name
  }

  lemma LedgerAfterOpen(files: map<string, File>, before: map<string, File>, segments: seq<Segment>, name: string,
                        at: int)
    requires Ledger(files, before, segments)
    requires name !in files && forall k :: 0 <= k < |segments| ==> segments[k].name != name
    ensures Ledger(files[name := File([], at, true)], before, segments + [Segment(name, [])])
  {
    var more := segments + [Segment(name, [])];
    assert more[|segments|] == Segment(name, []);
    forall n | n in files && IsSegment(segments, n, files[n].content) ensures IsSegment(more, n, files[n].content) {
      var k :| 0 <= k < |segments| && segments[k].name == n && segments[k].content == files[n].content;
      assert more[k] == segments[k];
    }
  }

  /** Appends to the last segment. */
  function Appended(segments: seq<Segment>, line: Bytes): seq<Segment>
    requires segments != []
  {
    var last := segments[|segments| - 1];
    segments[..|segments| - 1] + [last.(content := last.content + line)]
  }

  /** Writing to an open file reaches its directory entry only while that still exists. */
  function FilesAfterWrite(files: map<string, File>, name: string, line: Bytes, at: int): map<string, File> {
    if name in files then files[name := File(files[name].content + line, at, true)] else files
  }

  lemma LedgerAfterWrite(files: map<string, File>, before: map<string, File>, segments: seq<Segment>, line: Bytes,
                         at: int)
    requires Ledger(files, before, segments) && segments != [] && NamesDistinct(segments)
    ensures Ledger(FilesAfterWrite(files, segments[|segments| - 1].name, line, at), before, Appended(segments, line))
  {
    var last := |segments| - 1;
    var more := Appended(segments, line);
    var after := FilesAfterWrite(files, segments[last].name, line, at);
    forall n | n in after ensures (n in before && after[n] == before[n]) || IsSegment(more, n, after[n].content) {
      if n == segments[last].name {
        assert more[last].name == n && more[last].content == after[n].content;
      } else if IsSegment(segments, n, files[n].content) {
        var k :| 0 <= k < |segments| && segments[k].name == n && segments[k].content == files[n].content;
        assert more[k] == segments[k];
      }
    }
  }

  lemma LedgerAfterRemoval(files: map<string, File>, before: map<string, File>, segments: seq<Segment>,
                           names: set<string>)
    requires Ledger(files, before, segments)
    ensures Ledger(files - names, before, segments)
  {
  }

  /** The state of the stream between two lines. */
  ghost predicate Streaming(segments: seq<Segment>, numbers: seq<nat>, stem: string, sequence: nat,
                            active: Option<string>, activeSize: nat) {
    NamedInOrder(segments, numbers, stem, sequence) &&
    (sequence == if numbers == [] then 0 else numbers[|numbers| - 1] + 1) &&
    (if segments == [] then active.None?
     else active == Some(segments[|segments| - 1].name) && activeSize == |segments[|segments| - 1].content|)
  }

  function NamesBetween(stem: string, start: nat, end: nat): set<string> {
    set n: nat | start <= n < end :: SegmentName(stem, n)
  }

  lemma NextNameIsNew(stem: string, start: nat, end: nat)
    ensures SegmentName(stem, end) !in NamesBetween(stem, start, end)
    ensures start <= end ==>
      NamesBetween(stem, start, end + 1) == NamesBetween(stem, start, end) + {SegmentName(stem, end)}
  {
    forall n: nat | start <= n < end ensures SegmentName(stem, n) != SegmentName(stem, end) {
      SegmentNamesDiffer(stem, n, end);
    }
  }

  /** Exclusive creation: the first number whose name is free. */
  method OpenSegment(directory: Directory, stem: string, start: nat) returns (name: string, next: nat)
    ensures start < next && name == SegmentName(stem, next - 1) && name !in directory.files
    ensures NamesBetween(stem, start, next - 1) <= directory.files.Keys
  {
    next := start;
    name := SegmentName(stem, next);
    while name in directory.files
      invariant start <= next && name == SegmentName(stem, next)
      invariant NamesBetween(stem, start, next) <= directory.files.Keys
      decreases directory.files.Keys - NamesBetween(stem, start, next)
    {
      NextNameIsNew(stem, start, next);
      next := next + 1;
      name := SegmentName(stem, next);
    }
    next := next + 1;
  }

  lemma NewNameIsUnused(segments: seq<Segment>, numbers: seq<nat>, stem: string, sequence: nat, n: nat)
    requires NamedInOrder(segments, numbers, stem, sequence) && n >= sequence
    ensures forall k :: 0 <= k < |segments| ==> segments[k].name != SegmentName(stem, n)
  {
    NamesAreDistinct(segments, numbers, stem, sequence);
  }

  lemma StreamingAfterOpen(segments: seq<Segment>, numbers: seq<nat>, stem: string, sequence: nat, n: nat)
    requires NamedInOrder(segments, numbers, stem, sequence) && n >= sequence
    ensures var name := SegmentName(stem, n);
      Streaming(segments + [Segment(name, [])], numbers + [n], stem, n + 1, Some(name), 0)
  {
  }

  /** Creates the next segment's file. */
  method CreateSegment(directory: Directory, at: int, stem: string, sequence: nat,
                       ghost before: map<string, File>, ghost segments: seq<Segment>, ghost numbers: seq<nat>)
    returns (name: string, next: nat)
    requires NamedInOrder(segments, numbers, stem, sequence) && Ledger(directory.files, before, segments)
    modifies directory
    ensures next > 0 && name !in old(directory.files)
    ensures directory.files == old(directory.files)[name := File([], at, true)]
    ensures Ledger(directory.files, before, segments + [Segment(name, [])])
    ensures Streaming(segments + [Segment(name, [])], numbers + [next - 1], stem, next, Some(name), 0)
  {
    name, next := OpenSegment(directory, stem, sequence);
    NewNameIsUnused(segments, numbers, stem, sequence, next - 1);
    LedgerAfterOpen(directory.files, before, segments, name, at);
    directory.files := directory.files[name := File([], at, true)];
    StreamingAfterOpen(segments, numbers, stem, sequence, next - 1);
  }

  /** The directory after a new file was opened, or not. */
  function FilesAfterOpen(files: map<string, File>, opens: bool, name: string, at: int): map<string, File> {
    if opens then files[name := File([], at, true)] else files
  }

  /** Opens a new segment if there is none yet, or if the line would push the current one over the limit. */
  method RollSegment(directory: Directory, line: Bytes, at: int, stem: string, maxFileBytes: int,
                     active: Option<string>, activeSize: nat, sequence: nat,
                     ghost before: map<string, File>, ghost segments: seq<Segment>, ghost numbers: seq<nat>)
    returns (name: string, size: nat, next: nat, ghost rolled: seq<Segment>, ghost numbered: seq<nat>)
    requires Streaming(segments, numbers, stem, sequence, active, activeSize)
    requires Ledger(directory.files, before, segments)
    modifies directory
    ensures Streaming(rolled, numbered, stem, next, Some(name), size) && Ledger(directory.files, before, rolled)
    ensures rolled == if NeedsRoll(segments, line, maxFileBytes) then segments + [Segment(name, [])] else segments
    ensures if NeedsRoll(segments, line, maxFileBytes) then name !in old(directory.files) else active == Some(name)
    ensures directory.files == FilesAfterOpen(old(directory.files), NeedsRoll(segments, line, maxFileBytes), name, at)
  {
    if active.None? || (activeSize > 0 && activeSize + |line| > maxFileBytes) {
      assert NeedsRoll(segments, line, maxFileBytes);
      name, next := CreateSegment(directory, at, stem, sequence, before, segments, numbers);
      size := 0;
      rolled, numbered := segments + [Segment(name, [])], numbers + [next - 1];
    } else {
      assert !NeedsRoll(segments, line, maxFileBytes);
      name, size, next := active.value, activeSize, sequence;
      rolled, numbered := segments, numbers;
    }
  }

  /** The directory after one more line, for which a new file was opened or not. */
  function FilesAfterLine(files: map<string, File>, opens: bool, name: string, line: Bytes, at: int): map<string,
                          File> {
    FilesAfterWrite(FilesAfterOpen(files, opens, name, at), name, line, at)
  }

  /** Of all files, only `name` may have changed, and was then written at `at`. */
  ghost predicate OnlyTouches(before: map<string, File>, after: map<string, File>, name: string, at: int) {
    (forall other :: other in after && other != name ==> other in before && after[other] == before[other]) &&
    (name in after ==> after[name].modified == at && after[name].regular)
  }

  lemma WriteOnlyTouches(before: map<string, File>, name: string, line: Bytes, at: int, opens: bool)
    ensures OnlyTouches(before, FilesAfterLine(before, opens, name, line, at), name, at)
    ensures opens || name in before ==> name in FilesAfterLine(before, opens, name, line, at)
  {
  }

  lemma LineIsOpenAndWrite(before: map<string, File>, created: map<string, File>, opens: bool,
                           name: string, line: Bytes, at: int)
    requires created == FilesAfterOpen(before, opens, name, at)
    ensures FilesAfterWrite(created, name, line, at) == FilesAfterLine(before, opens, name, line, at)
  {
  }

  /** Rolls if the line asks for it, and writes the line. */
  method WriteLine(directory: Directory, line: Bytes, at: int, stem: string, maxFileBytes: int,
                   active: Option<string>, activeSize: nat, sequence: nat,
                   ghost before: map<string, File>, ghost segments: seq<Segment>, ghost numbers: seq<nat>)
    returns (name: string, size: nat, next: nat, ghost extended: seq<Segment>, ghost numbered: seq<nat>)
    requires Streaming(segments, numbers, stem, sequence, active, activeSize)
    requires Ledger(directory.files, before, segments)
    modifies directory
    ensures extended == Extended(segments, line, maxFileBytes, name)
    ensures Streaming(extended, numbered, stem, next, Some(name), size) && extended != []
    ensures Ledger(directory.files, before, extended)
    ensures var opens := NeedsRoll(segments, line, maxFileBytes);
      (if opens then name !in old(directory.files) else active == Some(name)) &&
      directory.files == FilesAfterLine(old(directory.files), opens, name, line, at)
  {
    name, size, next, extended, numbered := RollSegment(
      directory, line, at, stem, maxFileBytes, active, activeSize, sequence, before, segments, numbers);
    NamesAreDistinct(extended, numbered, stem, next);
    LedgerAfterWrite(directory.files, before, extended, line, at);
    LineIsOpenAndWrite(old(directory.files), directory.files, NeedsRoll(segments, line, maxFileBytes), name, line, at);
    ghost var rolled := extended;
    directory.files := FilesAfterWrite(directory.files, name, line, at);
    assert Ledger(directory.files, before, Appended(rolled, line));
    AppendedIsExtended(segments, rolled, line, maxFileBytes, name);
    StreamingAfterWrite(rolled, numbered, stem, next, name, size, line);
    extended := Appended(rolled, line);
    size := size + |line|;
  }

  lemma StreamingAfterWrite(segments: seq<Segment>, numbers: seq<nat>, stem: string, sequence: nat,
                            name: string, size: nat, line: Bytes)
    requires Streaming(segments, numbers, stem, sequence, Some(name), size) && segments != []
    ensures Streaming(Appended(segments, line), numbers, stem, sequence, Some(name), size + |line|)
  {
  }

  lemma AppendedIsExtended(segments: seq<Segment>, rolled: seq<Segment>, line: Bytes, maxFileBytes: int, name: string)
    requires rolled == if NeedsRoll(segments, line, maxFileBytes) then segments + [Segment(name, [])] else segments
    ensures Appended(rolled, line) == Extended(segments, line, maxFileBytes, name)
  {
    assert [] + line == line;
  }

  /** Rotation never takes away the newest file of the directory, nor a file the glob does not match. */
  lemma NewestSurvives(files: map<string, File>, candidates: seq<Candidate>, name: string, maxFiles: int, maxBytes: int)
    requires ListsCandidates(candidates, files) && maxFiles >= 1 && name in files && files[name].regular
    requires forall other :: other in files && other != name ==> files[other].modified < files[name].modified
    ensures name in files - Names(Rotated(candidates, maxFiles, maxBytes).removed)
  {
    var removed := Rotated(candidates, maxFiles, maxBytes).removed;
    RemovedWasCandidate(candidates, maxFiles, maxBytes);
    if d :| d in removed && d.name == name {
      assert d in candidates && IsCandidate(files, name);
      var i :| 0 <= i < |candidates| && candidates[i] == d;
      if i > 0 {
        assert Newer(candidates[0], d) && candidates[0] in candidates;
        assert candidates[0].name != name;
      }
      RemovedBrokeLimit(candidates, maxFiles, maxBytes, i);
    }
  }

  /** Before write `i`: everything in the directory is older, and the segment being written has its entry. */
  ghost predicate StillLinked(files: map<string, File>, active: Option<string>, times: seq<int>, i: nat) {
    (forall j :: i <= j < |times| ==> OlderThan(files, times[j])) && (active.Some? ==> active.value in files)
  }

  /** Rotation after a write newer than everything else spares what was written. */
  lemma WrittenSurvives(before: map<string, File>, written: map<string, File>, name: string, at: int,
                        candidates: seq<Candidate>, maxFiles: int, maxBytes: int)
    requires OnlyTouches(before, written, name, at) && OlderThan(before, at) && name in written
    requires ListsCandidates(candidates, written) && maxFiles >= 1
    ensures var after := written - Names(Rotated(candidates, maxFiles, maxBytes).removed);
      name in after && forall later :: later > at ==> OlderThan(after, later)
  {
    NewestSurvives(written, candidates, name, maxFiles, maxBytes);
  }

  // ----- the chronicle of a stream

  /** One turn: a line went to the file `name`, newly created if `opens`, and the candidates were rotated. */
  datatype Turn = Turn(opens: bool, name: string, line: Bytes, at: int, candidates: seq<Candidate>)

  datatype Limits = Limits(files: int, bytes: int)

  /** A rotation, and then turn after turn. */
  datatype Chronicle = Chronicle(first: seq<Candidate>, turns: seq<Turn>)

  function RemovedNames(candidates: seq<Candidate>, limits: Limits): set<string> {
    Names(Rotated(candidates, limits.files, limits.bytes).removed)
  }

  function FilesAfterTurn(files: map<string, File>, turn: Turn, limits: Limits): map<string, File> {
    FilesAfterLine(files, turn.opens, turn.name, turn.line, turn.at) - RemovedNames(turn.candidates, limits)
  }

  function FilesAfter(before: map<string, File>, first: seq<Candidate>, turns: seq<Turn>,
                      limits: Limits): map<string, File> {
    if turns == [] then before - RemovedNames(first, limits)
    else FilesAfterTurn(FilesAfter(before, first, turns[..|turns| - 1], limits), turns[|turns| - 1], limits)
  }

  /** A file is created only under a free name, and otherwise written only if the last turn wrote it. */
  ghost predicate TurnAllowed(files: map<string, File>, previous: Option<string>, turn: Turn) {
    (if turn.opens then turn.name !in files else previous == Some(turn.name)) &&
    ListsCandidates(turn.candidates, FilesAfterLine(files, turn.opens, turn.name, turn.line, turn.at))
  }

  function LastWritten(turns: seq<Turn>): Option<string> {
    if turns == [] then None else Some(turns[|turns| - 1].name)
  }

  ghost predicate Allowed(before: map<string, File>, first: seq<Candidate>, turns: seq<Turn>, limits: Limits) {
    if turns == [] then ListsCandidates(first, before)
    else
      var earlier := turns[..|turns| - 1];
      Allowed(before, first, earlier, limits) &&
      TurnAllowed(FilesAfter(before, first, earlier, limits), LastWritten(earlier), turns[|turns| - 1])
  }

  /** Every name that some rotation of the chronicle removed. */
  function RotatedAway(first: seq<Candidate>, turns: seq<Turn>, limits: Limits): set<string> {
    if turns == [] then RemovedNames(first, limits)
    else RotatedAway(first, turns[..|turns| - 1], limits) + RemovedNames(turns[|turns| - 1].candidates, limits)
  }

  /** The files created, in order. */
  function Openings(turns: seq<Turn>): seq<string> {
    if turns == [] then []
    else Openings(turns[..|turns| - 1]) + if turns[|turns| - 1].opens then [turns[|turns| - 1].name] else []
  }

  function SegmentNames(segments: seq<Segment>): seq<string> {
    seq(|segments|, k requires 0 <= k < |segments| => segments[k].name)
  }

  /**
   Nothing is overwritten: a file that was there before stays as it was until a rotation removes it,
   and the stream never writes to it.
   */
  lemma {:induction false} NothingIsOverwritten(before: map<string, File>, first: seq<Candidate>, turns: seq<Turn>,
                                                limits: Limits, name: string)
    requires Allowed(before, first, turns, limits)
    requires name in before && name !in RotatedAway(first, turns, limits)
    ensures name in FilesAfter(before, first, turns, limits)
    ensures FilesAfter(before, first, turns, limits)[name] == before[name]
    ensures LastWritten(turns) != Some(name) && name !in Openings(turns)
  {
    if turns != [] {
      NothingIsOverwritten(before, first, turns[..|turns| - 1], limits, name);
    }
  }

  /** The chronicle accounts for the directory, and its creations are the segments. */
  ghost predicate Chronicled(before: map<string, File>, files: map<string, File>, c: Chronicle, limits: Limits,
                             segments: seq<Segment>, active: Option<string>) {
    Allowed(before, c.first, c.turns, limits) && files == FilesAfter(before, c.first, c.turns, limits) &&
    Openings(c.turns) == SegmentNames(segments) && LastWritten(c.turns) == active
  }

  lemma TurnIsChronicled(before: map<string, File>, files: map<string, File>, c: Chronicle, limits: Limits,
                         segments: seq<Segment>, active: Option<string>, turn: Turn, maxFileBytes: int)
    requires Chronicled(before, files, c, limits, segments, active) && TurnAllowed(files, active, turn)
    requires turn.opens == NeedsRoll(segments, turn.line, maxFileBytes)
    ensures Chronicled(before, FilesAfterTurn(files, turn, limits), c.(turns := c.turns + [turn]), limits,
                       Extended(segments, turn.line, maxFileBytes, turn.name), Some(turn.name))
  {
    TurnIsAllowed(before, files, c, limits, active, turn);
    OpeningIsSegment(c.turns, turn, segments, maxFileBytes);
  }

  lemma TurnIsAllowed(before: map<string, File>, files: map<string, File>, c: Chronicle, limits: Limits,
                      active: Option<string>, turn: Turn)
    requires Allowed(before, c.first, c.turns, limits) && files == FilesAfter(before, c.first, c.turns, limits)
    requires LastWritten(c.turns) == active && TurnAllowed(files, active, turn)
    ensures Allowed(before, c.first, c.turns + [turn], limits)
    ensures FilesAfterTurn(files, turn, limits) == FilesAfter(before, c.first, c.turns + [turn], limits)
    ensures LastWritten(c.turns + [turn]) == Some(turn.name)
  {
    var longer := c.turns + [turn];
    LongerIsAllowed(before, c.first, longer, c.turns, limits, turn);
    FilesAfterLonger(before, c.first, longer, c.turns, limits, turn);
  }

  lemma LongerIsAllowed(before: map<string, File>, first: seq<Candidate>, longer: seq<Turn>, turns: seq<Turn>,
                        limits: Limits, turn: Turn)
    requires longer == turns + [turn] && Allowed(before, first, turns, limits)
    requires TurnAllowed(FilesAfter(before, first, turns, limits), LastWritten(turns), turn)
    ensures Allowed(before, first, longer, limits)
  {
    assert longer[..|longer| - 1] == turns && longer[|longer| - 1] == turn;
  }

  lemma FilesAfterLonger(before: map<string, File>, first: seq<Candidate>, longer: seq<Turn>, turns: seq<Turn>,
                         limits: Limits, turn: Turn)
    requires longer == turns + [turn]
    ensures FilesAfter(before, first, longer, limits) ==
      FilesAfterTurn(FilesAfter(before, first, turns, limits), turn, limits)
  {
    assert longer[..|longer| - 1] == turns && longer[|longer| - 1] == turn;
  }

  lemma OpeningIsSegment(turns: seq<Turn>, turn: Turn, segments: seq<Segment>, maxFileBytes: int)
    requires Openings(turns) == SegmentNames(segments) && turn.opens == NeedsRoll(segments, turn.line, maxFileBytes)
    ensures Openings(turns + [turn]) == SegmentNames(Extended(segments, turn.line, maxFileBytes, turn.name))
  {
    assert (turns + [turn])[..|turns|] == turns;
    var extended := Extended(segments, turn.line, maxFileBytes, turn.name);
    if !turn.opens {
      assert forall k :: 0 <= k < |segments| ==> extended[k].name == segments[k].name;
    }
  }

  /** The turns wrote these lines at these times. */
  predicate TurnsWrote(turns: seq<Turn>, lines: seq<Bytes>, times: seq<int>)
    requires |lines| == |times|
  {
    |turns| == |lines| && forall k :: 0 <= k < |turns| ==> turns[k].line == lines[k] && turns[k].at == times[k]
  }

  /** One turn of the stream: write the line, then rotate. */
  method StreamLine(directory: Directory, line: Bytes, at: int, stem: string,
                    maxFiles: int, maxTotalBytes: int, maxFileBytes: int,
                    active: Option<string>, activeSize: nat, sequence: nat,
                    ghost before: map<string, File>, ghost segments: seq<Segment>, ghost numbers: seq<nat>,
                    ghost chronicle: Chronicle)
    returns (name: string, size: nat, next: nat, rotation: RotationResult,
             ghost extended: seq<Segment>, ghost numbered: seq<nat>, ghost turn: Turn)
    requires maxFiles >= 1 && maxTotalBytes >= 1
    requires Chronicled(before, directory.files, chronicle, Limits(maxFiles, maxTotalBytes), segments, active)
    requires Streaming(segments, numbers, stem, sequence, active, activeSize)
    requires Ledger(directory.files, before, segments)
    modifies directory
    ensures rotation.Done? && forall name :: name in rotation.kept <==> IsCandidate(directory.files, name)
    ensures extended == Extended(segments, line, maxFileBytes, name) && extended != []
    ensures Streaming(extended, numbered, stem, next, Some(name), size) && Ledger(directory.files, before, extended)
    ensures turn.line == line && turn.at == at
    ensures if NeedsRoll(segments, line, maxFileBytes) then name !in old(directory.files) else active == Some(name)
    ensures Chronicled(before, directory.files, chronicle.(turns := chronicle.turns + [turn]),
                       Limits(maxFiles, maxTotalBytes), extended, Some(name))
    ensures OlderThan(old(directory.files), at) && (active.Some? ==> active.value in old(directory.files)) ==>
      name in directory.files && forall later :: later > at ==> OlderThan(directory.files, later)
  {
    name, size, next, extended, numbered := WriteLine(
      directory, line, at, stem, maxFileBytes, active, activeSize, sequence, before, segments, numbers);
    ghost var written := directory.files;
    ghost var candidates;
    rotation, candidates := RotateJsonlLogs(directory, maxFiles, maxTotalBytes);
    LedgerAfterRemoval(written, before, extended, Names(Rotated(candidates, maxFiles, maxTotalBytes).removed));
    turn := Turn(NeedsRoll(segments, line, maxFileBytes), name, line, at, candidates);
    WriteOnlyTouches(old(directory.files), name, line, at, turn.opens);
    TurnIsChronicled(before, old(directory.files), chronicle, Limits(maxFiles, maxTotalBytes), segments, active,
                     turn, maxFileBytes);
    if OlderThan(old(directory.files), at) && name in written {
      WrittenSurvives(old(directory.files), written, name, at, candidates, maxFiles, maxTotalBytes);
    }
  }

  ghost predicate Untouched(before: map<string, File>, files: map<string, File>, exempt: set<string>) {
    forall name :: name in before && name !in exempt ==> name in files && files[name] == before[name]
  }

  lemma OthersAreUntouched(before: map<string, File>, c: Chronicle, limits: Limits)
    requires Allowed(before, c.first, c.turns, limits)
    ensures Untouched(before, FilesAfter(before, c.first, c.turns, limits), RotatedAway(c.first, c.turns, limits))
  {
    forall name | name in before && name !in RotatedAway(c.first, c.turns, limits)
      ensures name in FilesAfter(before, c.first, c.turns, limits)
      ensures FilesAfter(before, c.first, c.turns, limits)[name] == before[name]
    {
      NothingIsOverwritten(before, c.first, c.turns, limits, name);
    }
  }

  lemma TurnsWroteOn(turns: seq<Turn>, turn: Turn, lines: seq<Bytes>, times: seq<int>, i: nat)
    requires |lines| == |times| && i < |lines| && TurnsWrote(turns, lines[..i], times[..i])
    requires turn.line == lines[i] && turn.at == times[i]
    ensures TurnsWrote(turns + [turn], lines[..i + 1], times[..i + 1])
  {
  }

  /**
   The segments hold the lines, and so does the mirror; each is within the limit or holds a single line, and
   no two neighbours would have fit into one file.
   */
  ghost predicate Written(segments: seq<Segment>, mirror: Bytes, lines: seq<Bytes>, maxFileBytes: int) {
    mirror == Contents(segments) == Concat(lines) && WithinLimit(segments, lines, maxFileBytes) &&
    Packed(segments, maxFileBytes) && (segments == [] <==> lines == [])
  }

  lemma WrittenOn(segments: seq<Segment>, mirror: Bytes, lines: seq<Bytes>, line: Bytes, maxFileBytes: int,
                  name: string)
    requires Written(segments, mirror, lines, maxFileBytes)
    ensures Written(Extended(segments, line, maxFileBytes, name), mirror + line, lines + [line], maxFileBytes)
  {
    ContentsExtended(segments, line, maxFileBytes, name);
    ExtendedWithinLimit(segments, lines, line, maxFileBytes, name);
    ExtendedIsPacked(segments, line, maxFileBytes, name);
    assert (lines + [line])[..|lines|] == lines;
  }

  datatype StreamResult = InvalidMaxFileBytes | Finished(rotation: RotationResult)

  /** After `i` lines. */
  ghost predicate Streamed(before: map<string, File>, files: map<string, File>, lines: seq<Bytes>, times: seq<int>,
                           i: nat,
                           maxFileBytes: int, limits: Limits, segments: seq<Segment>, mirror: Bytes, c: Chronicle,
                           active: Option<string>)
    requires i <= |lines| == |times|
  {
    && Written(segments, mirror, lines[..i], maxFileBytes)
    && TurnsWrote(c.turns, lines[..i], times[..i])
    && Ledger(files, before, segments)
    && Chronicled(before, files, c, limits, segments, active)
    && (TimesAreNew(times, before) ==> StillLinked(files, active, times, i))
  }

  /** Everything but the first rotation: line after line. */
  method StreamLines(directory: Directory, lines: seq<Bytes>, times: seq<int>, stem: string,
                     maxFiles: int, maxTotalBytes: int, maxFileBytes: int, started: RotationResult,
                     ghost before: map<string, File>, ghost first: seq<Candidate>)
    returns (rotation: RotationResult, mirror: Bytes, ghost segments: seq<Segment>, ghost numbers: seq<nat>,
             ghost chronicle: Chronicle, ghost last: Option<string>)
    requires |times| == |lines| && maxFiles >= 1 && maxTotalBytes >= 1
    requires started.Done? && forall name :: name in started.kept <==> IsCandidate(directory.files, name)
    requires Streamed(before, directory.files, lines, times, 0, maxFileBytes, Limits(maxFiles, maxTotalBytes),
                      [], [], Chronicle(first, []), None)
    modifies directory
    ensures rotation.Done? && forall name :: name in rotation.kept <==> IsCandidate(directory.files, name)
    ensures Streamed(before, directory.files, lines, times, |lines|, maxFileBytes, Limits(maxFiles, maxTotalBytes),
                     segments, mirror, chronicle, last)
    ensures NamedInOrder(segments, numbers, stem, if numbers == [] then 0 else numbers[|numbers| - 1] + 1)
    ensures last == if segments == [] then None else Some(segments[|segments| - 1].name)
  {
    rotation, mirror, segments, numbers, chronicle := started, [], [], [], Chronicle(first, []);
    var sequence: nat, activeSize: nat := 0, 0;
    var active: Option<string> := None;
    for i := 0 to |lines|
      invariant rotation.Done? && forall name :: name in rotation.kept <==> IsCandidate(directory.files, name)
      invariant Streaming(segments, numbers, stem, sequence, active, activeSize)
      invariant Streamed(before, directory.files, lines, times, i, maxFileBytes, Limits(maxFiles, maxTotalBytes),
                         segments, mirror, chronicle, active)
    {
      active, activeSize, sequence, rotation, mirror, segments, numbers, chronicle := StreamNext(
        directory, lines, times, i, stem, maxFiles, maxTotalBytes, maxFileBytes,
        active, activeSize, sequence, mirror, before, segments, numbers, chronicle);
    }
    last := active;
  }

  lemma LineIsRecorded(turns: seq<Turn>, turn: Turn, lines: seq<Bytes>, times: seq<int>, i: nat,
                       segments: seq<Segment>, mirror: Bytes, maxFileBytes: int, name: string)
    requires i < |lines| == |times| && turn.line == lines[i] && turn.at == times[i]
    requires TurnsWrote(turns, lines[..i], times[..i]) && Written(segments, mirror, lines[..i], maxFileBytes)
    ensures TurnsWrote(turns + [turn], lines[..i + 1], times[..i + 1])
    ensures Written(Extended(segments, lines[i], maxFileBytes, name), mirror + lines[i], lines[..i + 1], maxFileBytes)
  {
    TurnsWroteOn(turns, turn, lines, times, i);
    WrittenOn(segments, mirror, lines[..i], lines[i], maxFileBytes, name);
    assert lines[..i + 1] == lines[..i] + [lines[i]];
  }

  /** Streams line `i` to the active segment and to the mirror. */
  method StreamNext(directory: Directory, lines: seq<Bytes>, times: seq<int>, i: nat, stem: string,
                    maxFiles: int, maxTotalBytes: int, maxFileBytes: int,
                    active: Option<string>, activeSize: nat, sequence: nat, mirrored: Bytes,
                    ghost before: map<string, File>, ghost segments: seq<Segment>, ghost numbers: seq<nat>,
                    ghost c: Chronicle)
    returns (now: Option<string>, size: nat, next: nat, rotation: RotationResult, mirror: Bytes,
             ghost extended: seq<Segment>, ghost numbered: seq<nat>, ghost chronicle: Chronicle)
    requires i < |lines| == |times| && maxFiles >= 1 && maxTotalBytes >= 1
    requires Streaming(segments, numbers, stem, sequence, active, activeSize)
    requires Streamed(before, directory.files, lines, times, i, maxFileBytes, Limits(maxFiles, maxTotalBytes),
                      segments, mirrored, c, active)
    modifies directory
    ensures rotation.Done? && forall name :: name in rotation.kept <==> IsCandidate(directory.files, name)
    ensures Streaming(extended, numbered, stem, next, now, size)
    ensures Streamed(before, directory.files, lines, times, i + 1, maxFileBytes, Limits(maxFiles, maxTotalBytes),
                     extended, mirror, chronicle, now)
  {
    var name;
    ghost var turn;
    name, size, next, rotation, extended, numbered, turn := StreamLine(
      directory, lines[i], times[i], stem, maxFiles, maxTotalBytes, maxFileBytes,
      active, activeSize, sequence, before, segments, numbers, c);
    LineIsRecorded(c.turns, turn, lines, times, i, segments, mirrored, maxFileBytes, name);
    now, mirror, chronicle := Some(name), mirrored + lines[i], c.(turns := c.turns + [turn]);
  }

  /**
   Streams the lines. The segments, in the order they were opened, together hold the input, and so
   does the mirror; no name is used twice; every segment was created under a name that was free at the
   time, and a file that was there before stays as it was unless a rotation removed it; and if every
   write is newer than all files, the segment being written keeps its directory entry.
   */
  method StreamJsonlLogs(directory: Directory, lines: seq<Bytes>, times: seq<int>, stem: string,
                         maxFiles: int, maxTotalBytes: int, maxFileBytes: int)
    returns (result: StreamResult, mirror: Bytes,
             ghost segments: seq<Segment>, ghost numbers: seq<nat>, ghost chronicle: Chronicle)
    requires |times| == |lines|
    modifies directory
    ensures result.InvalidMaxFileBytes? <==> maxFileBytes < 1
    ensures maxFileBytes >= 1 ==> (result.rotation.Done? <==> maxFiles >= 1 && maxTotalBytes >= 1)
    ensures !(result.Finished? && result.rotation.Done?) ==>
      directory.files == old(directory.files) && segments == [] && mirror == []
    ensures result.Finished? && result.rotation.Done? ==>
      && Written(segments, mirror, lines, maxFileBytes)
      && NamedInOrder(segments, numbers, stem, if numbers == [] then 0 else numbers[|numbers| - 1] + 1)
      && OnlyOurs(directory.files, old(directory.files), segments)
      && (forall name :: name in result.rotation.kept <==> IsCandidate(directory.files, name))
    ensures result.Finished? && result.rotation.Done? ==>
      var limits := Limits(maxFiles, maxTotalBytes);
      && Chronicled(old(directory.files), directory.files, chronicle, limits, segments, LastWritten(chronicle.turns))
      && TurnsWrote(chronicle.turns, lines, times)
      && Untouched(old(directory.files), directory.files, RotatedAway(chronicle.first, chronicle.turns, limits))
    ensures result.Finished? && result.rotation.Done? && TimesAreNew(times, old(directory.files)) && lines != [] ==>
      segments != [] && segments[|segments| - 1].name in directory.files
  {
    mirror, segments, numbers, chronicle := [], [], [], Chronicle([], []);
    if maxFileBytes < 1 {
      return InvalidMaxFileBytes, [], [], [], chronicle;
    }
    ghost var before := directory.files;
    var rotation, candidates := RotateJsonlLogs(directory, maxFiles, maxTotalBytes);
    if !rotation.Done? {
      return Finished(rotation), [], [], [], chronicle;
    }
    ghost var limits, last := Limits(maxFiles, maxTotalBytes), None;
    NothingStreamed(before, lines, times, maxFileBytes, limits, candidates);
    rotation, mirror, segments, numbers, chronicle, last := StreamLines(
      directory, lines, times, stem, maxFiles, maxTotalBytes, maxFileBytes, rotation, before, candidates);
    AllStreamed(before, directory.files, lines, times, maxFileBytes, limits, segments, mirror, chronicle, last);
    result := Finished(rotation);
  }

  lemma NothingStreamed(before: map<string, File>, lines: seq<Bytes>, times: seq<int>, maxFileBytes: int,
                        limits: Limits, first: seq<Candidate>)
    requires |lines| == |times| && ListsCandidates(first, before)
    ensures Streamed(before, before - RemovedNames(first, limits), lines, times, 0, maxFileBytes, limits, [], [],
                     Chronicle(first, []), None)
  {
    assert lines[..0] == [] && times[..0] == [];
    LedgerAfterRemoval(before, before, [], RemovedNames(first, limits));
  }

  lemma AllStreamed(before: map<string, File>, files: map<string, File>, lines: seq<Bytes>, times: seq<int>,
                    maxFileBytes: int, limits: Limits, segments: seq<Segment>, mirror: Bytes, c: Chronicle,
                    last: Option<string>)
    requires |lines| == |times|
    requires Streamed(before, files, lines, times, |lines|, maxFileBytes, limits, segments, mirror, c, last)
    requires last == if segments == [] then None else Some(segments[|segments| - 1].name)
    ensures Written(segments, mirror, lines, maxFileBytes) && TurnsWrote(c.turns, lines, times)
    ensures OnlyOurs(files, before, segments)
    ensures Chronicled(before, files, c, limits, segments, LastWritten(c.turns))
    ensures Untouched(before, files, RotatedAway(c.first, c.turns, limits))
    ensures TimesAreNew(times, before) && lines != [] ==>
      segments != [] && segments[|segments| - 1].name in files
  {
    assert lines[..|lines|] == lines && times[..|times|] == times;
    OthersAreUntouched(before, c, limits);
  }
}
