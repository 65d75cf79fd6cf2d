/** The three kinds of lint output line the segmenter tells apart.

    - Verbose lines start with `---`, `///`, `===` or four whitespace
      characters; they are banners and explanations that are never suppressed.
    - Message lines read `<file>:<space><line>:<space><severity><space><code>`
      with a severity of `Warning`, `Error`, `Info` or `Note`, where each
      `<space>` is any run of whitespace, possibly empty. The message code is
      kept as the digit string it is.
    - Everything else is free text. */
module LintLines {
  import opened Wrappers
  import opened Lexing

  /** What a message line says: where, and which message. */
  datatype Report = Report(file: string, line: nat, code: string)

  datatype LintLine = Verbose | Message(report: Report) | Text

  predicate NotColon(c: char) {
    c != ':'
  }

  predicate NoColon(s: string) {
    forall i :: 0 <= i < |s| ==> s[i] != ':'
  }

  // ---------------------------------------------------------------------------
  // Verbose lines: `^(---|///|===|\s{4})`
  // ---------------------------------------------------------------------------

  predicate IsVerbose(line: string) {
    || StartsWith(line, "---")
    || StartsWith(line, "///")
    || StartsWith(line, "===")
    || (|line| >= 4 && AllSpace(line[..4]))
  }

  // ---------------------------------------------------------------------------
  // Message lines:
  // `^(?P<filename>[^:]*):\s*(?P<lineno>\d+):\s*(Warning|Error|Info|Note)\s*(?P<msgno>\d+)`
  // ---------------------------------------------------------------------------

  /** What is left after a greedy `\s*`. */
  function SkipSpace(s: string): (r: string)
    ensures |r| <= |s| && r == s[|s| - |r|..]
    ensures |r| > 0 ==> !IsSpace(r[0])
  {
    s[Span(s, IsSpace)..]
  }

  predicate IsSeverity(word: string) {
    word == "Warning" || word == "Error" || word == "Info" || word == "Note"
  }

  /** Length of the severity keyword at the start of `s`, or 0 if there is
      none. */
  function SeverityLength(s: string): (k: nat)
    ensures k > 0 ==> k <= |s| && IsSeverity(s[..k])
  {
    if StartsWith(s, "Warning") then 7
    else if StartsWith(s, "Error") then 5
    else if StartsWith(s, "Info") || StartsWith(s, "Note") then 4
    else 0
  }

  /** `[^:]*:` — the file name (everything before the first colon) and what
      follows the colon. */
  function ReadFile(line: string): (r: Option<(string, string)>)
    ensures r.Some? ==> NoColon(r.value.0) && line == r.value.0 + ":" + r.value.1
  {
    var f := Span(line, NotColon);
    if f == |line| then None
    else
      assert line == line[..f] + ":" + line[f + 1..];
      Some((line[..f], line[f + 1..]))
  }

  /** `\s*\d+:` — the line number and what follows its colon. */
  function ReadLineNumber(s: string): (r: Option<(nat, string)>)
    ensures r.Some? ==> |r.value.1| < |s|
  {
    var t := SkipSpace(s);
    var d := Span(t, IsDigit);
    if d == 0 || d == |t| || t[d] != ':' then None
    else Some((Value(t[..d]), t[d + 1..]))
  }

  /** `\s*(Warning|Error|Info|Note)` — what follows the severity keyword. */
  function ReadSeverity(s: string): (r: Option<string>)
    ensures r.Some? ==> |r.value| < |s|
  {
    var t := SkipSpace(s);
    var k := SeverityLength(t);
    if k == 0 then None else Some(t[k..])
  }

  /** `\s*\d+` — the message code, as the digit string it is. */
  function ReadCode(s: string): (r: Option<string>)
    ensures r.Some? ==> |r.value| > 0 && AllDigits(r.value)
  {
    var t := SkipSpace(s);
    var c := Span(t, IsDigit);
    if c == 0 then None else Some(t[..c])
  }

  /** The file, line number and message code of a message line. */
  function ParseMessage(line: string): (r: Option<Report>)
    ensures r.Some? ==> StartsWith(line, r.value.file + ":") && NoColon(r.value.file)
    ensures r.Some? ==> |r.value.code| > 0 && AllDigits(r.value.code)
  {
    match ReadFile(line)
    case None => None
    case Some((file, afterFile)) =>
      assert line[..|file| + 1] == file + ":";
      match ReadLineNumber(afterFile)
      case None => None
      case Some((lineNo, afterLine)) =>
        match ReadSeverity(afterLine)
        case None => None
        case Some(afterSeverity) =>
          match ReadCode(afterSeverity)
          case None => None
          case Some(code) => Some(Report(file, lineNo, code))
  }

  /** A message line as a lint tool writes it: `lineDigits` are the digits of
      the line number and `text` is the message after the code. */
  function FormatMessage(file: string, gap1: string, lineDigits: string, gap2: string, severity: string, gap3: string, code: string, text: string): string {
    file + ":" + (gap1 + lineDigits + ":" + (gap2 + severity + (gap3 + code + text)))
  }

  lemma SkipSpaceOver(gap: string, s: string)
    requires AllSpace(gap)
    requires |s| > 0 && !IsSpace(s[0])
    ensures SkipSpace(gap + s) == s
  {
    SpanAppend(gap, s, IsSpace);
    assert (gap + s)[|gap|..] == s;
  }

  lemma SeverityLengthOf(severity: string, rest: string)
    requires IsSeverity(severity)
    ensures SeverityLength(severity + rest) == |severity|
  {
    var s := severity + rest;
    assert s[..|severity|] == severity;
    assert s[0] == severity[0];
  }

  lemma DigitsSpan(ds: string, rest: string)
    requires AllDigits(ds)
    requires |rest| > 0 ==> !IsDigit(rest[0])
    ensures Span(ds + rest, IsDigit) == |ds|
    ensures (ds + rest)[..|ds|] == ds && (ds + rest)[|ds|..] == rest
  {
    SpanAppend(ds, rest, IsDigit);
    if |rest| > 0 {
      assert !IsDigit(rest[0]);
    }
  }

  lemma ReadFileOf(file: string, rest: string)
    requires NoColon(file)
    ensures ReadFile(file + ":" + rest) == Some((file, rest))
  {
    var line := file + ":" + rest;
    assert line == file + (":" + rest);
    SpanAppend(file, ":" + rest, NotColon);
    assert line[..|file|] == file;
    assert line[|file| + 1..] == rest;
  }

  lemma ReadLineNumberOf(gap: string, ds: string, rest: string)
    requires AllSpace(gap) && IsNumber(ds)
    ensures ReadLineNumber(gap + ds + ":" + rest) == Some((Value(ds), rest))
  {
    var t := ds + (":" + rest);
    assert gap + ds + ":" + rest == gap + t;
    SkipSpaceOver(gap, t);
    DigitsSpan(ds, ":" + rest);
    assert t[|ds| + 1..] == rest;
  }

  lemma ReadSeverityOf(gap: string, severity: string, rest: string)
    requires AllSpace(gap) && IsSeverity(severity)
    ensures ReadSeverity(gap + severity + rest) == Some(rest)
  {
    var t := severity + rest;
    assert gap + severity + rest == gap + t;
    SkipSpaceOver(gap, t);
    SeverityLengthOf(severity, rest);
    assert t[|severity|..] == rest;
  }

  lemma ReadCodeOf(gap: string, code: string, rest: string)
    requires AllSpace(gap)
    requires |code| > 0 && AllDigits(code)
    requires |rest| > 0 ==> !IsDigit(rest[0])
    ensures ReadCode(gap + code + rest) == Some(code)
  {
    var t := code + rest;
    assert gap + code + rest == gap + t;
    SkipSpaceOver(gap, t);
    DigitsSpan(code, rest);
  }

  /** Parsing recovers the file, line number and code of any message line,
      whatever message text follows the code; the line number is the value
      of its digits, leading zeros included. */
  lemma ParseFormatMessage(file: string, gap1: string, lineDigits: string, gap2: string, severity: string, gap3: string, code: string, text: string)
    requires NoColon(file)
    requires AllSpace(gap1) && AllSpace(gap2) && AllSpace(gap3)
    requires IsNumber(lineDigits)
    requires IsSeverity(severity)
    requires |code| > 0 && AllDigits(code)
    requires |text| > 0 ==> !IsDigit(text[0])
    ensures ParseMessage(FormatMessage(file, gap1, lineDigits, gap2, severity, gap3, code, text)) ==
              Some(Report(file, Value(lineDigits), code))
  {
    var afterSeverity := gap3 + code + text;
    var afterLine := gap2 + severity + afterSeverity;
    var afterFile := gap1 + lineDigits + ":" + afterLine;
    ReadFileOf(file, afterFile);
    ReadLineNumberOf(gap1, lineDigits, afterLine);
    ReadSeverityOf(gap2, severity, afterSeverity);
    ReadCodeOf(gap3, code, text);
  }

  // ---------------------------------------------------------------------------
  // Classification
  // ---------------------------------------------------------------------------

  /** The verbose pattern is tried first; a line that is neither verbose nor
      a message is free text. */
  function ClassifyLint(line: string): LintLine {
    if IsVerbose(line) then Verbose
    else match ParseMessage(line)
      case Some(r) => Message(r)
      case None => Text
  }
}
