/** Wraps a text into console rows of exactly 80 columns. */
module ConsoleView {
  const CONSOLE_WIDTH := 80
  const CONTENT_WIDTH := 76
  const DELETE := 127 as char

  /** Protocol text is untrusted: control characters become spaces. */
  function PrintableChar(c: char): char {
    if c >= ' ' && c != DELETE then c else ' '
  }

  function Printable(value: string): (text: string)
    ensures |text| == |value|
    ensures forall i :: 0 <= i < |text| ==>
      text[i] == if ' ' <= value[i] && value[i] as int != 127 then value[i] else ' '
  {
    if value == "" then "" else [PrintableChar(value[0])] + Printable(value[1..])
  }

  function Spaces(count: nat): string {
    seq(count, _ => ' ')
  }

  /** Cuts or pads a text to a width. */
  function Fitted(value: string, width: nat): (text: string)
    ensures |text| == width
    ensures |value| <= width ==> text == value + Spaces(width - |value|)
    ensures |value| > width ==> text == value[..width]
  {
    var cut := if |value| <= width then value else value[..width];
    cut + Spaces(width - |cut|)
  }

  function Framed(content: string): string {
    "| " + Fitted(content, CONTENT_WIDTH) + " |"
  }

  // ----- where rows are cut

  /** The last space at or before position `from`; -1 if there is none. */
  function LastSpace(text: string, from: nat): (i: int)
    requires from < |text|
    ensures -1 <= i <= from && (i >= 0 ==> text[i] == ' ')
    ensures forall k :: i < k <= from ==> text[k] != ' '
  {
    if text[from] == ' ' then from else if from == 0 then -1 else LastSpace(text, from - 1)
  }

  /** Where the row that starts at `start` ends. */
  function RowEnd(text: string, start: nat): (end: nat)
    requires start < |text|
    ensures start < end <= |text| && end - start <= CONTENT_WIDTH
  {
    if |text| - start <= CONTENT_WIDTH then |text|
    else
      var space := LastSpace(text[start..], CONTENT_WIDTH);
      if space > 0 then start + space else start + CONTENT_WIDTH
  }

  function SkipSpaces(text: string, from: nat): (next: nat)
    requires from <= |text|
    ensures from <= next <= |text| && (next < |text| ==> text[next] != ' ')
    ensures forall k :: from <= k < next ==> text[k] == ' '
    decreases |text| - from
  {
    if from < |text| && text[from] == ' ' then SkipSpaces(text, from + 1) else from
  }

  datatype Row = Row(start: nat, end: nat)

  /** The rows of `text` from position `start` on. */
  function RowsFrom(text: string, start: nat): seq<Row>
    requires start <= |text|
    decreases |text| - start
  {
    if start == |text| then []
    else
      var end := RowEnd(text, start);
      [Row(start, end)] + RowsFrom(text, SkipSpaces(text, end))
  }

  function Content(text: string, row: Row): string
    requires row.start <= row.end <= |text|
  {
    text[row.start..row.end]
  }

  // ----- nothing but spaces is dropped

  function NonSpaces(text: string): string {
    if text == "" then "" else (if text[0] == ' ' then "" else [text[0]]) + NonSpaces(text[1..])
  }

  ghost predicate RowsFit(text: string, rows: seq<Row>) {
    forall i :: 0 <= i < |rows| ==>
      rows[i].start < rows[i].end <= |text| && rows[i].end - rows[i].start <= CONTENT_WIDTH
  }

  /** The rows' contents, one after the other. */
  function Joined(text: string, rows: seq<Row>): string
    requires RowsFit(text, rows)
  {
    if rows == [] then "" else Content(text, rows[0]) + Joined(text, rows[1..])
  }

  lemma {:induction false} NonSpacesConcat(a: string, b: string)
    ensures NonSpaces(a + b) == NonSpaces(a) + NonSpaces(b)
  {
    if a == "" {
      assert a + b == b;
    } else {
      NonSpacesConcat(a[1..], b);
      assert a + b == [a[0]] + (a[1..] + b);
      NonSpacesHead(a[0], a[1..] + b);
      NonSpacesHead(a[0], a[1..]);
      assert [a[0]] + a[1..] == a;
      if a[0] != ' ' {
        Associate([a[0]], NonSpaces(a[1..]), NonSpaces(b));
      }
    }
  }

  lemma NonSpacesHead(c: char, rest: string)
    ensures NonSpaces([c] + rest) == if c == ' ' then NonSpaces(rest) else [c] + NonSpaces(rest)
  {
    assert ([c] + rest)[1..] == rest;
  }

  lemma Associate(a: string, b: string, c: string)
    ensures a + (b + c) == (a + b) + c
  {
  }

  lemma {:induction false} NoNonSpaces(text: string)
    requires forall k :: 0 <= k < |text| ==> text[k] == ' '
    ensures NonSpaces(text) == ""
  {
    if text != "" {
      NoNonSpaces(text[1..]);
    }
  }

  /** The rows together hold exactly the text's non-space characters, in order. */
  lemma {:induction false} RowsKeepText(text: string, start: nat)
    requires start <= |text|
    ensures RowsFit(text, RowsFrom(text, start))
    ensures NonSpaces(Joined(text, RowsFrom(text, start))) == NonSpaces(text[start..])
    decreases |text| - start
  {
    if start < |text| {
      var end := RowEnd(text, start);
      var next := SkipSpaces(text, end);
      RowsKeepText(text, next);
      var rows := RowsFrom(text, start);
      assert rows[1..] == RowsFrom(text, next);
      assert RowsFit(text, rows);
      NonSpacesConcat(text[start..end], Joined(text, rows[1..]));
      SkippedSpacesDoNotCount(text, start, end, next);
    }
  }

  lemma SkippedSpacesDoNotCount(text: string, start: nat, end: nat, next: nat)
    requires start <= end <= next <= |text| && forall k :: end <= k < next ==> text[k] == ' '
    ensures NonSpaces(text[start..]) == NonSpaces(text[start..end]) + NonSpaces(text[next..])
  {
    NonSpacesConcat(text[end..next], text[next..]);
    NonSpacesConcat(text[start..end], text[end..next] + text[next..]);
    NoNonSpaces(text[end..next]);
    assert text[start..] == text[start..end] + (text[end..next] + text[next..]);
  }

  // ----- words

  /** A maximal run of non-space characters. */
  ghost predicate IsWord(text: string, from: nat, to: nat) {
    from < to <= |text| && (forall k :: from <= k < to ==> text[k] != ' ') &&
    (from > 0 ==> text[from - 1] == ' ') && (to < |text| ==> text[to] == ' ')
  }

  /** Some row ends strictly inside the word. */
  ghost predicate Splits(rows: seq<Row>, from: nat, to: nat) {
    exists i :: 0 <= i < |rows| && from < rows[i].end < to
  }

  /** The only texts whose short words can be cut: a leading space, then a word that just fits a row. */
  predicate CutsShortWord(text: string) {
    |text| > CONTENT_WIDTH && text[0] == ' ' &&
    (forall k :: 1 <= k <= CONTENT_WIDTH ==> text[k] != ' ') &&
    (|text| == CONTENT_WIDTH + 1 || text[CONTENT_WIDTH + 1] == ' ')
  }

  lemma RowCutsOnlyAfterLeadingSpace(text: string, start: nat, from: nat, to: nat)
    requires start < |text| && IsWord(text, from, to) && to - from <= CONTENT_WIDTH
    requires from < RowEnd(text, start) < to
    ensures text[start] == ' ' && from == start + 1 && to == start + CONTENT_WIDTH + 1
  {
    var end := RowEnd(text, start);
    var rest := text[start..];
    var space := LastSpace(rest, CONTENT_WIDTH);
    assert |rest| > CONTENT_WIDTH && (space > 0 ==> end == start + space);
    assert forall k :: 0 <= k < |rest| ==> rest[k] == text[start + k];
    assert forall k :: 1 <= k <= CONTENT_WIDTH ==> rest[k] != ' ';
    assert forall k :: start + 1 <= k <= start + CONTENT_WIDTH ==> text[k] == rest[k - start];
  }

  lemma {:induction false} LaterRowsCutNothing(text: string, start: nat, from: nat, to: nat)
    requires start <= |text| && (start < |text| ==> text[start] != ' ')
    requires IsWord(text, from, to) && to - from <= CONTENT_WIDTH
    ensures !Splits(RowsFrom(text, start), from, to)
    decreases |text| - start
  {
    if start < |text| {
      var next := SkipSpaces(text, RowEnd(text, start));
      LaterRowsCutNothing(text, next, from, to);
      if from < RowEnd(text, start) < to {
        RowCutsOnlyAfterLeadingSpace(text, start, from, to);
        assert false;
      }
      FirstOrLater(text, start, from, to);
    }
  }

  lemma FirstOrLater(text: string, start: nat, from: nat, to: nat)
    requires start < |text|
    ensures Splits(RowsFrom(text, start), from, to) <==>
      from < RowEnd(text, start) < to ||
      Splits(RowsFrom(text, SkipSpaces(text, RowEnd(text, start))), from, to)
  {
    var rows := RowsFrom(text, start);
    var later := RowsFrom(text, SkipSpaces(text, RowEnd(text, start)));
    assert rows[0].end == RowEnd(text, start) && rows[1..] == later;
    forall i | 0 <= i < |later| ensures later[i] == rows[i + 1] {
    }
    if i :| 0 <= i < |later| && from < later[i].end < to {
      assert from < rows[i + 1].end < to;
    }
    if i :| 0 <= i < |rows| && from < rows[i].end < to {
      assert i > 0 ==> from < later[i - 1].end < to;
    }
  }

  ghost predicate SplitsShortWord(text: string, from: nat, to: nat) {
    IsWord(text, from, to) && to - from <= CONTENT_WIDTH && Splits(RowsFrom(text, 0), from, to)
  }

  /**
   A word that fits a row is split exactly if the text starts with one space and goes on with a word
   as wide as a row. In every other text words of at most 76 characters stay whole.
   */
  lemma ShortWordsAreSplitIff(text: string)
    ensures (exists from: nat, to: nat :: SplitsShortWord(text, from, to)) <==> CutsShortWord(text)
  {
    forall from: nat, to: nat | SplitsShortWord(text, from, to) ensures CutsShortWord(text) {
      FirstOrLater(text, 0, from, to);
      LaterRowsCutNothing(text, SkipSpaces(text, RowEnd(text, 0)), from, to);
      RowCutsOnlyAfterLeadingSpace(text, 0, from, to);
    }
    if CutsShortWord(text) {
      assert text[0..] == text;
      assert LastSpace(text, CONTENT_WIDTH) <= 0;
      assert RowEnd(text, 0) == CONTENT_WIDTH;
      assert IsWord(text, 1, CONTENT_WIDTH + 1);
      FirstOrLater(text, 0, 1, CONTENT_WIDTH + 1);
      assert SplitsShortWord(text, 1, CONTENT_WIDTH + 1);
    }
  }

  // ----- rows are as full as they can be

  /** From `start` on, `end` is the last space that leaves a row within 76 columns, or all 76 are filled. */
  predicate Latest(text: string, start: nat, end: nat) {
    start < end && start + 76 < |text| &&
    (forall k :: end < k <= start + 76 ==> text[k] != ' ') &&
    (if end < start + 76 then text[end] == ' '
     else end == start + 76 && (text[end] == ' ' || forall k :: start < k <= start + 76 ==> text[k] != ' '))
  }

  /** Every row but the last ends at the last space that leaves it within 76 columns, or fills all of them. */
  ghost predicate Greedy(text: string, rows: seq<Row>) {
    forall i :: 0 <= i < |rows| ==> FullRow(text, rows[i])
  }

  predicate FullRow(text: string, row: Row) {
    if row.start + 76 >= |text| then row.end == |text| else Latest(text, row.start, row.end)
  }

  lemma RowIsFull(text: string, start: nat)
    requires start < |text|
    ensures FullRow(text, Row(start, RowEnd(text, start)))
  {
    var end := RowEnd(text, start);
    if |text| - start > CONTENT_WIDTH {
      var rest := text[start..];
      var space := LastSpace(rest, CONTENT_WIDTH);
      assert forall k :: 0 <= k < |rest| ==> rest[k] == text[start + k];
      forall k | end < k <= start + 76 ensures text[k] != ' ' {
        assert rest[k - start] == text[k];
      }
      if space <= 0 {
        forall k | start < k <= start + 76 ensures text[k] != ' ' {
          assert rest[k - start] == text[k];
        }
      }
    }
  }

  /** Each row is as long as it can be, and the next begins at the first character after it that is no space. */
  lemma {:induction false} RowsAreGreedy(text: string, start: nat)
    requires start <= |text|
    ensures Greedy(text, RowsFrom(text, start))
    ensures start < |text| ==> RowsFrom(text, start) != [] && RowsFrom(text, start)[0].start == start
    ensures Adjoining(text, RowsFrom(text, start))
    decreases |text| - start
  {
    if start < |text| {
      var next := SkipSpaces(text, RowEnd(text, start));
      RowsAreGreedy(text, next);
      RowIsFull(text, start);
      var rows := RowsFrom(text, start);
      assert rows[1..] == RowsFrom(text, next);
    }
  }

  /** Only spaces separate the rows. */
  ghost predicate Adjoining(text: string, rows: seq<Row>) {
    forall i :: 0 < i < |rows| ==> NextBegins(text, rows[i - 1].end, rows[i].start)
  }

  predicate NextBegins(text: string, end: nat, start: nat) {
    end <= start < |text| && text[start] != ' ' && forall k :: end <= k < start ==> text[k] == ' '
  }

  // ----- the loop

  /** The console lines of `text` from position `start` on. */
  function Rendered(text: string, start: nat): seq<string>
    requires start <= |text|
    decreases |text| - start
  {
    if start == |text| then []
    else
      var end := RowEnd(text, start);
      [Framed(text[start..end])] + Rendered(text, SkipSpaces(text, end))
  }

  /** Each line frames one row, and is exactly as wide as the console. */
  lemma {:induction false} RenderedShowsRows(text: string, start: nat)
    requires start <= |text|
    ensures RowsFit(text, RowsFrom(text, start)) && |Rendered(text, start)| == |RowsFrom(text, start)|
    ensures forall i :: 0 <= i < |Rendered(text, start)| ==>
      Rendered(text, start)[i] == Framed(Content(text, RowsFrom(text, start)[i])) &&
      |Rendered(text, start)[i]| == CONSOLE_WIDTH
    decreases |text| - start
  {
    RowsKeepText(text, start);
    if start < |text| {
      RenderedShowsRows(text, SkipSpaces(text, RowEnd(text, start)));
    }
  }

  /** Strips leading spaces; `from` is where `remaining` begins in `text`. */
  method StripSpaces(remaining: string, ghost text: string, ghost from: nat) returns (rest: string)
    requires from <= |text| && remaining == text[from..]
    ensures rest == text[SkipSpaces(text, from)..]
  {
    rest := remaining;
    ghost var start: nat := from;
    while rest != "" && rest[0] == ' '
      invariant from <= start <= |text| && rest == text[start..]
      invariant SkipSpaces(text, start) == SkipSpaces(text, from)
      decreases |rest|
    {
      rest := rest[1..];
      start := start + 1;
    }
  }

  /** How much of the remaining text goes into the next row. */
  method NextCount(remaining: string) returns (count: nat)
    requires remaining != ""
    ensures count == RowEnd(remaining, 0)
  {
    assert remaining[0..] == remaining;
    count := if |remaining| < CONTENT_WIDTH then |remaining| else CONTENT_WIDTH;
    if |remaining| > CONTENT_WIDTH {
      var space := LastSpace(remaining, CONTENT_WIDTH);
      if space > 0 {
        count := space;
      }
    }
  }

  lemma RowEndOfRest(text: string, start: nat)
    requires start < |text|
    ensures RowEnd(text, start) == start + RowEnd(text[start..], 0)
  {
    assert text[start..][0..] == text[start..];
  }

  lemma PrependFirst(lines: seq<string>, line: string, rest: seq<string>)
    ensures lines + [line] + rest == lines + ([line] + rest)
  {
  }

  lemma SliceOfRest(text: string, start: nat, count: nat)
    requires start + count <= |text|
    ensures text[start..][..count] == text[start..start + count]
  {
  }

  lemma PrependLine(lines: seq<string>, text: string, start: nat, line: string, next: nat)
    requires start < |text| && line == Framed(text[start..RowEnd(text, start)])
    requires next == SkipSpaces(text, RowEnd(text, start))
    ensures lines + [line] + Rendered(text, next) == lines + Rendered(text, start)
  {
    PrependFirst(lines, line, Rendered(text, next));
  }

  lemma DropTwice(text: string, start: nat, count: nat)
    requires start + count <= |text|
    ensures text[start..][count..] == text[start + count..]
  {
  }

  /** Writes the next row, and strips the spaces after it. */
  method WriteRow(lines: seq<string>, remaining: string, ghost text: string, ghost start: nat)
    returns (more: seq<string>, rest: string)
    requires start < |text| && remaining == text[start..]
    ensures more == lines + [Framed(text[start..RowEnd(text, start)])]
    ensures rest == text[SkipSpaces(text, RowEnd(text, start))..]
  {
    var count := NextCount(remaining);
    RowEndOfRest(text, start);
    SliceOfRest(text, start, count);
    more := lines + [Framed(remaining[..count])];
    DropTwice(text, start, count);
    rest := StripSpaces(remaining[count..], text, start + count);
  }

  /** Writes a text as rows. */
  method WriteLine(value: string) returns (lines: seq<string>)
    ensures lines == Rendered(Printable(value), 0)
  {
    var text := Printable(value);
    var remaining := text;
    lines := [];
    ghost var start: nat := 0;
    while remaining != ""
      invariant start <= |text| && remaining == text[start..]
      invariant lines + Rendered(text, start) == Rendered(text, 0)
      decreases |text| - start
    {
      ghost var next := SkipSpaces(text, RowEnd(text, start));
      PrependLine(lines, text, start, Framed(text[start..RowEnd(text, start)]), next);
      lines, remaining := WriteRow(lines, remaining, text, start);
      start := next;
    }
  }
}
