/** The two kinds of diff output line the index builder recognises: a file
    header (`diff <options> <old path> <new path>`) and an ed-style hunk line
    (`<old range><a|c><start>[,<end>]`). Everything else is ignored. */
module DiffLines {
  import opened Wrappers
  import opened Lexing

  // ---------------------------------------------------------------------------
  // Hunk lines: `^[,\d]+[ac](?P<start>\d+)(,(?P<end>\d+))?`
  // ---------------------------------------------------------------------------

  predicate IsOldRangeChar(c: char) {
    c == ',' || IsDigit(c)
  }

  /** Only the add and change actions are recognised; delete (`d`) is not. */
  predicate IsAction(c: char) {
    c == 'a' || c == 'c'
  }

  predicate OldRangeBefore(line: string, k: int)
    requires 0 <= k <= |line|
  {
    forall j :: 0 <= j < k ==> IsOldRangeChar(line[j])
  }

  /** The shape the hunk pattern accepts: a non-empty old-side range, an add
      or change action, then at least one digit of the new-side start. */
  ghost predicate HunkShaped(line: string) {
    exists k :: 0 < k < |line| - 1 && OldRangeBefore(line, k) && IsAction(line[k]) && IsDigit(line[k + 1])
  }

  /** The old-side range is the whole greedy run of digits and commas, so a
      hunk shape can only have its action right after that run. */
  lemma HunkShapedAtSpan(line: string)
    ensures HunkShaped(line) <==>
              var k := Span(line, IsOldRangeChar);
              0 < k < |line| - 1 && IsAction(line[k]) && IsDigit(line[k + 1])
  {
    var k := Span(line, IsOldRangeChar);
    if HunkShaped(line) {
      var k' :| 0 < k' < |line| - 1 && OldRangeBefore(line, k') && IsAction(line[k']) && IsDigit(line[k' + 1]);
      SpanIs(line, IsOldRangeChar, k');
    }
    if 0 < k < |line| - 1 && IsAction(line[k]) && IsDigit(line[k + 1]) {
      assert OldRangeBefore(line, k);
    }
  }

  /** Reads the greedy run of digits at the start of `s` (`\d+`): its value
      and what follows it. */
  function ReadNumber(s: string): (r: (nat, string))
    ensures |r.1| <= |s| && r.1 == s[|s| - |r.1|..]
    ensures |r.1| > 0 ==> !IsDigit(r.1[0])
  {
    var d := Span(s, IsDigit);
    (Value(s[..d]), s[d..])
  }

  /** The optional `,end` after the start: `start` itself when it is absent. */
  function RangeEnd(tail: string, start: nat): nat {
    if |tail| >= 2 && tail[0] == ',' && IsDigit(tail[1]) then ReadNumber(tail[1..]).0 else start
  }

  /** The new-side range `(start, end)` of a hunk line; `end` is `start` when
      the line gives no `,end`. */
  function ParseRange(line: string): (r: Option<(nat, nat)>)
    ensures r.Some? <==> HunkShaped(line)
  {
    HunkShapedAtSpan(line);
    var k := Span(line, IsOldRangeChar);
    if k == 0 || k + 1 >= |line| || !IsAction(line[k]) || !IsDigit(line[k + 1]) then
      None
    else
      var (start, tail) := ReadNumber(line[k + 1..]);
      Some((start, RangeEnd(tail, start)))
  }

  /** A hunk line: the old-side range, the action, the digits of the
      new-side start and, optionally, a comma and the digits of its end. */
  function FormatHunk(oldRange: string, action: char, start: string, end: Option<string>): string {
    oldRange + [action] + start + FormatEnd(end)
  }

  function FormatEnd(end: Option<string>): string {
    match end
    case Some(e) => "," + e
    case None => ""
  }

  /** The digits of the end, when present, are a number. */
  predicate EndIsNumber(end: Option<string>) {
    end.Some? ==> IsNumber(end.value)
  }

  lemma SpanNone<T>(s: seq<T>, p: T -> bool)
    requires |s| > 0 && !p(s[0])
    ensures Span(s, p) == 0
  {
  }

  /** Reading a run of digits gives its value and stops where the run
      stops. */
  lemma ReadDigits(ds: string, rest: string)
    requires AllDigits(ds)
    requires |rest| > 0 ==> !IsDigit(rest[0])
    ensures ReadNumber(ds + rest) == (Value(ds), rest)
  {
    var s := ds + rest;
    SpanAppend(ds, rest, IsDigit);
    if |rest| > 0 {
      SpanNone(rest, IsDigit);
    }
    assert s[..|ds|] == ds;
    assert s[|ds|..] == rest;
  }

  lemma ReadRangeEnd(start: nat, end: Option<string>, rest: string)
    requires EndIsNumber(end)
    requires |rest| > 0 ==> !IsDigit(rest[0])
    requires end.None? && |rest| >= 2 && rest[0] == ',' ==> !IsDigit(rest[1])
    ensures RangeEnd(FormatEnd(end) + rest, start) == if end.Some? then Value(end.value) else start
  {
    match end {
      case Some(e) =>
        var tail := FormatEnd(end) + rest;
        assert tail[1..] == e + rest;
        assert tail[1] == e[0];
        ReadDigits(e, rest);
      case None =>
        assert FormatEnd(end) + rest == rest;
    }
  }

  /** The old-side range of a hunk line ends at its action character. */
  lemma OldRangeSpan(oldRange: string, after: string)
    requires |oldRange| > 0 && forall j :: 0 <= j < |oldRange| ==> IsOldRangeChar(oldRange[j])
    requires |after| > 0 && !IsOldRangeChar(after[0])
    ensures Span(oldRange + after, IsOldRangeChar) == |oldRange|
  {
    SpanAppend(oldRange, after, IsOldRangeChar);
    SpanNone(after, IsOldRangeChar);
  }

  /** What `ParseRange` reads once the action character has been found. */
  lemma ParseRangeAt(line: string, k: nat)
    requires 0 < k < |line| - 1 && Span(line, IsOldRangeChar) == k
    requires IsAction(line[k]) && IsDigit(line[k + 1])
    ensures var (start, tail) := ReadNumber(line[k + 1..]);
            ParseRange(line) == Some((start, RangeEnd(tail, start)))
  {
  }

  /** `ParseRange` on a line made of an old-side range, then the action and
      what follows it. */
  lemma ParseRangeAfter(oldRange: string, after: string)
    requires |oldRange| > 0 && forall j :: 0 <= j < |oldRange| ==> IsOldRangeChar(oldRange[j])
    requires |after| >= 2 && IsAction(after[0]) && IsDigit(after[1])
    ensures var (start, tail) := ReadNumber(after[1..]);
            ParseRange(oldRange + after) == Some((start, RangeEnd(tail, start)))
  {
    var line := oldRange + after;
    var k := |oldRange|;
    OldRangeSpan(oldRange, after);
    assert line[k] == after[0] && line[k + 1] == after[1];
    assert line[k + 1..] == after[1..];
    ParseRangeAt(line, k);
  }

  lemma FormatHunkLayout(oldRange: string, action: char, start: string, end: Option<string>, rest: string)
    ensures FormatHunk(oldRange, action, start, end) + rest == oldRange + ([action] + (start + (FormatEnd(end) + rest)))
  {
  }

  /** The new-side range of any add or change hunk line is recovered by
      parsing: the start is the value of its digits (leading zeros
      included), and so is the end when `,end` is present; otherwise the end
      is the start. This holds whatever follows the range, as long as it
      does not extend a number. */
  lemma ParseFormatHunk(oldRange: string, action: char, start: string, end: Option<string>, rest: string)
    requires |oldRange| > 0 && forall j :: 0 <= j < |oldRange| ==> IsOldRangeChar(oldRange[j])
    requires IsAction(action)
    requires IsNumber(start) && EndIsNumber(end)
    requires |rest| > 0 ==> !IsDigit(rest[0])
    requires end.None? && |rest| >= 2 && rest[0] == ',' ==> !IsDigit(rest[1])
    ensures ParseRange(FormatHunk(oldRange, action, start, end) + rest) ==
              Some((Value(start), if end.Some? then Value(end.value) else Value(start)))
  {
    var tail := FormatEnd(end) + rest;
    var after := [action] + (start + tail);
    FormatHunkLayout(oldRange, action, start, end, rest);
    if |tail| > 0 {
      assert tail[0] == ',' || tail[0] == rest[0];
    }
    ReadDigits(start, tail);
    assert after[1..] == start + tail;
    assert after[1] == start[0];
    ParseRangeAfter(oldRange, after);
    ReadRangeEnd(Value(start), end, rest);
  }

  // ---------------------------------------------------------------------------
  // File header lines: `^diff .* (?P<file>\S+)$`
  // ---------------------------------------------------------------------------

  predicate NoNewline(s: string) {
    forall i :: 0 <= i < |s| ==> s[i] != '\n'
  }

  predicate NoSpace(s: string) {
    forall i :: 0 <= i < |s| ==> !IsSpace(s[i])
  }

  /** `$` matches at the end of the line or just before one final newline. */
  function StripNewline(line: string): (body: string)
    ensures line == body || line == body + "\n"
  {
    if |line| > 0 && line[|line| - 1] == '\n' then line[..|line| - 1] else line
  }

  /** Index of the last space in `s`, or -1 when there is none. */
  function LastSpace(s: string): (j: int)
    ensures -1 <= j < |s|
    ensures j >= 0 ==> s[j] == ' '
    ensures forall i :: j < i < |s| ==> s[i] != ' '
  {
    if |s| == 0 then -1
    else if s[|s| - 1] == ' ' then |s| - 1
    else LastSpace(s[..|s| - 1])
  }

  /** The last space is determined by there being no space after it. */
  lemma LastSpaceIs(s: string, j: int)
    requires 0 <= j < |s| && s[j] == ' '
    requires forall i :: j < i < |s| ==> s[i] != ' '
    ensures LastSpace(s) == j
  {
  }

  /** A header line as diff writes it: `diff`, the options and the old path
      (`middle`, on one line), then the new path, then an optional newline. */
  function FormatHeader(middle: string, file: string, eol: string): string {
    "diff " + middle + " " + file + eol
  }

  predicate HeaderParts(line: string, middle: string, file: string, eol: string) {
    && line == FormatHeader(middle, file, eol)
    && NoNewline(middle)
    && |file| > 0 && NoSpace(file)
    && (eol == "" || eol == "\n")
  }

  /** The test `ParseHeader` makes of a line without its newline, whose last
      space is at `j`. */
  predicate HeaderAt(body: string, j: int)
    requires -1 <= j < |body|
  {
    5 <= j && j + 1 < |body| && StartsWith(body, "diff ") && NoNewline(body[5..j]) && NoSpace(body[j + 1..])
  }

  lemma HeaderAtParts(line: string, j: int)
    requires 0 <= j < |StripNewline(line)| && StripNewline(line)[j] == ' '
    requires HeaderAt(StripNewline(line), j)
    ensures var body := StripNewline(line);
            var file := body[j + 1..];
            && |body| >= 6 + |file|
            && HeaderParts(line, body[5..|body| - |file| - 1], file, line[|body|..])
  {
    var body := StripNewline(line);
    assert |body| - |body[j + 1..]| - 1 == j;
    assert body == "diff " + body[5..j] + " " + body[j + 1..];
    assert line == body + line[|body|..];
  }

  /** The file named by a header line: its last space-separated token. */
  function ParseHeader(line: string): Option<string> {
    var body := StripNewline(line);
    var j := LastSpace(body);
    if HeaderAt(body, j) then Some(body[j + 1..]) else None
  }

  /** Whatever `ParseHeader` accepts is a header line: `diff`, the options
      and old path on one line, a space, the file it returns (non-empty and
      without whitespace), and at most one newline. */
  lemma ParseHeaderSound(line: string)
    ensures ParseHeader(line).Some? ==>
              var body := StripNewline(line);
              var file := ParseHeader(line).value;
              && |body| >= 6 + |file|
              && HeaderParts(line, body[5..|body| - |file| - 1], file, line[|body|..])
  {
    var body := StripNewline(line);
    var j := LastSpace(body);
    if HeaderAt(body, j) {
      HeaderAtParts(line, j);
    }
  }

  /** Parsing recovers the new path of any header line. */
  lemma ParseFormatHeader(middle: string, file: string, eol: string)
    requires HeaderParts(FormatHeader(middle, file, eol), middle, file, eol)
    ensures ParseHeader(FormatHeader(middle, file, eol)) == Some(file)
  {
    var line := FormatHeader(middle, file, eol);
    var body := "diff " + middle + " " + file;
    assert line == body + eol;
    assert body[|body| - 1] == file[|file| - 1];
    assert StripNewline(line) == body;
    var j := 5 + |middle|;
    assert body[j] == ' ';
    assert forall i :: j < i < |body| ==> body[i] == file[i - j - 1];
    LastSpaceIs(body, j);
    assert body[5..j] == middle;
    assert body[j + 1..] == file;
    assert body[..5] == "diff ";
  }

  // ---------------------------------------------------------------------------
  // Classification
  // ---------------------------------------------------------------------------

  /** What one diff line means to the index builder. The header pattern is
      tried first. */
  datatype DiffLine = Header(file: string) | Hunk(start: nat, end: nat) | Ignored

  function ClassifyDiff(line: string): DiffLine {
    match ParseHeader(line)
    case Some(f) => Header(f)
    case None =>
      match ParseRange(line)
      case Some((s, e)) => Hunk(s, e)
      case None => Ignored
  }

  /** A line starting with a digit or a comma is not a header. */
  lemma RangeStartNotHeader(line: string)
    requires |line| > 0 && IsOldRangeChar(line[0])
    ensures ParseHeader(line) == None
  {
    ParseHeaderSound(line);
  }

  /** The delete action is not one the hunk pattern accepts. */
  lemma DeleteNotHunk(oldRange: string, rest: string)
    requires |oldRange| > 0 && forall j :: 0 <= j < |oldRange| ==> IsOldRangeChar(oldRange[j])
    ensures ParseRange(oldRange + ("d" + rest)) == None
  {
    var line := oldRange + ("d" + rest);
    OldRangeSpan(oldRange, "d" + rest);
    assert line[|oldRange|] == 'd';
  }

  /** A delete hunk (`<old range>d<line>`) is neither a header nor a
      recognised hunk, so it contributes nothing to the index. */
  lemma DeleteHunkIgnored(oldRange: string, rest: string)
    requires |oldRange| > 0 && forall j :: 0 <= j < |oldRange| ==> IsOldRangeChar(oldRange[j])
    ensures ClassifyDiff(oldRange + "d" + rest) == Ignored
  {
    var line := oldRange + "d" + rest;
    assert line == oldRange + ("d" + rest);
    assert line[0] == oldRange[0];
    RangeStartNotHeader(line);
    DeleteNotHunk(oldRange, rest);
  }
}
