/** The concrete lines of the worked examples: a diff of `foo.py`, a diff
    whose header names `b`, a delete hunk, a hunk with zero-padded numbers,
    four lint messages (one with a zero-padded line number) and a banner. */
module ExampleText {
  import opened LintLines

  const HeaderLine: string := "diff -u a/foo.py foo.py\n"
  const HunkLine: string := "3,4c3,5\n"
  /** `foo.py: 3: Warning 100 unused var`, with its newline. */
  const Hit: string := FormatMessage("foo.py", " ", "3", " ", "Warning", " ", "100", " unused var\n")
  /** `foo.py: 10: Warning 100 unused var`, with its newline. */
  const Miss: string := FormatMessage("foo.py", " ", "10", " ", "Warning", " ", "100", " unused var\n")
  const Banner: string := "----\n"
  const ShortHeaderLine: string := "diff -u a b\n"
  const DeleteLine: string := "3d2\n"
  /** `3,4c03,005`, with its newline: the new-side numbers are zero-padded. */
  const PaddedHunkLine: string := "3,4c03,005\n"
  /** `foo.py: 03: Warning 100 unused var`, with its newline. */
  const PaddedHit: string := FormatMessage("foo.py", " ", "03", " ", "Warning", " ", "100", " unused var\n")
  /** `foo.py: 3: Error 5 bad`, with its newline. */
  const ErrorLine: string := FormatMessage("foo.py", " ", "3", " ", "Error", " ", "5", " bad\n")
}

/** Concrete diff and lint output lines, and how the patterns read them.

    The message lines are written with `FormatMessage`; each diff line is
    first shown to have the shape its format function describes. The
    classification lemmas then work from that shape, which keeps each proof
    small. */
module ExampleLines {
  import opened Wrappers
  import opened Lexing
  import opened DiffLines
  import opened LintLines
  import opened ExampleText

  /** A line that does not start with `d` is no header. */
  lemma NotHeader(line: string)
    requires |line| > 0 && line[0] != 'd'
    ensures ParseHeader(line) == None
  {
  }

  /** A line that starts with none of `-`, `/`, `=` or whitespace is not
      verbose. */
  lemma NotVerbose(line: string)
    requires |line| > 0 && line[0] != '-' && line[0] != '/' && line[0] != '=' && !IsSpace(line[0])
    ensures !IsVerbose(line)
  {
    if |line| >= 4 {
      assert line[..4][0] == line[0];
    }
    if |line| >= 3 {
      assert line[..3][0] == line[0];
    }
  }


  lemma HeaderLineShape(line: string)
    requires line == HeaderLine
    ensures line == FormatHeader("-u a/foo.py", "foo.py", "\n")
  {
  }

  lemma ClassifyHeaderLine(line: string)
    requires line == HeaderLine
    ensures ClassifyDiff(line) == Header("foo.py")
  {
    HeaderLineShape(line);
    ParseFormatHeader("-u a/foo.py", "foo.py", "\n");
  }

  /** The values of the digit strings the examples use. */
  lemma SmallValues()
    ensures Value("3") == 3 && Value("5") == 5 && Value("10") == 10
    ensures Value("03") == 3 && Value("005") == 5
  {
    assert "10"[..1] == "1";
    assert "03"[..1] == "0";
    assert "005"[..2] == "00" && "00"[..1] == "0";
  }

  lemma HunkLineShape(line: string)
    requires line == HunkLine
    ensures line == FormatHunk("3,4", 'c', "3", Some("5")) + "\n"
  {
  }

  lemma ClassifyHunkLine(line: string)
    requires line == HunkLine
    ensures ClassifyDiff(line) == Hunk(3, 5)
  {
    assert line[0] == '3';
    RangeStartNotHeader(line);
    HunkLineShape(line);
    ParseFormatHunk("3,4", 'c', "3", Some("5"), "\n");
    SmallValues();
  }

  lemma PaddedHunkLineShape(line: string)
    requires line == PaddedHunkLine
    ensures line == FormatHunk("3,4", 'c', "03", Some("005")) + "\n"
  {
  }

  lemma ClassifyPaddedHunkLine(line: string)
    requires line == PaddedHunkLine
    ensures ClassifyDiff(line) == Hunk(3, 5)
  {
    assert line[0] == '3';
    RangeStartNotHeader(line);
    PaddedHunkLineShape(line);
    ParseFormatHunk("3,4", 'c', "03", Some("005"), "\n");
    SmallValues();
  }

  lemma ClassifyMessage(line: string, lineDigits: string, severity: string, code: string, text: string)
    requires line == FormatMessage("foo.py", " ", lineDigits, " ", severity, " ", code, text)
    requires IsNumber(lineDigits)
    requires IsSeverity(severity) && |code| > 0 && AllDigits(code)
    requires |text| > 0 && !IsDigit(text[0])
    ensures ClassifyLint(line) == Message(Report("foo.py", Value(lineDigits), code))
  {
    assert line[0] == 'f';
    NotVerbose(line);
    ParseFormatMessage("foo.py", " ", lineDigits, " ", severity, " ", code, text);
  }

  lemma ClassifyHit(line: string)
    requires line == Hit
    ensures ClassifyLint(line) == Message(Report("foo.py", 3, "100"))
  {
    ClassifyMessage(line, "3", "Warning", "100", " unused var\n");
    SmallValues();
  }

  lemma ClassifyMiss(line: string)
    requires line == Miss
    ensures ClassifyLint(line) == Message(Report("foo.py", 10, "100"))
  {
    ClassifyMessage(line, "10", "Warning", "100", " unused var\n");
    SmallValues();
  }

  /** A zero-padded line number reads as the same line. */
  lemma ClassifyPaddedHit(line: string)
    requires line == PaddedHit
    ensures ClassifyLint(line) == Message(Report("foo.py", 3, "100"))
  {
    ClassifyMessage(line, "03", "Warning", "100", " unused var\n");
    SmallValues();
  }

  lemma ClassifyBanner(line: string)
    requires line == Banner
    ensures ClassifyLint(line) == Verbose
  {
    assert line[..3] == "---";
  }

  lemma ShortHeaderLineShape(line: string)
    requires line == ShortHeaderLine
    ensures line == FormatHeader("-u a", "b", "\n")
  {
  }

  lemma ClassifyShortHeaderLine(line: string)
    requires line == ShortHeaderLine
    ensures ClassifyDiff(line) == Header("b")
  {
    ShortHeaderLineShape(line);
    ParseFormatHeader("-u a", "b", "\n");
  }

  lemma DeleteLineShape(line: string)
    requires line == DeleteLine
    ensures line == "3" + "d" + "2\n"
  {
  }

  lemma ClassifyDeleteLine(line: string)
    requires line == DeleteLine
    ensures ClassifyDiff(line) == Ignored
  {
    DeleteLineShape(line);
    DeleteHunkIgnored("3", "2\n");
  }

  lemma ClassifyError(line: string)
    requires line == ErrorLine
    ensures ClassifyLint(line) == Message(Report("foo.py", 3, "5"))
  {
    ClassifyMessage(line, "3", "Error", "5", " bad\n");
    SmallValues();
  }
}
