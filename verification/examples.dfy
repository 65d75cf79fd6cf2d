/** Worked inputs: what the pipeline does with small concrete diffs and lint
    outputs.

    The concrete lines are in `ExampleLines`. The end-to-end lemmas take
    the diff as concrete lines and the lint output as lines that classify as
    the concrete ones do (`TwoWarnings`, shown for `Hit` and `Miss` by
    `ExampleWarnings`), which keeps each proof small. */
module Examples {
  import opened Wrappers
  import opened Lexing
  import opened DiffLines
  import opened LintLines
  import opened ChangeIndex
  import opened Segmenter
  import opened Filter
  import opened Pipeline
  import opened ExampleText
  import opened ExampleLines

  // ---------------------------------------------------------------------------
  // A change hunk under a header, and two messages in the same file
  // ---------------------------------------------------------------------------

  lemma ScanHeaderHunk(file: string, start: nat, end: nat)
    ensures Scan([Header(file), Hunk(start, end)]).index == map[Some(file) := Interval(start, end)]
  {
    var ds := [Header(file), Hunk(start, end)];
    assert ds[..1] == [Header(file)] && ds[..1][..0] == [];
    assert Scan(ds[..1]) == Builder(Some(file), map[]);
    assert Lookup(map[], Some(file)) + Interval(start, end) == Interval(start, end);
  }

  lemma ClassifiedPair(diff: seq<string>, first: DiffLine, second: DiffLine)
    requires |diff| == 2
    requires ClassifyDiff(diff[0]) == first && ClassifyDiff(diff[1]) == second
    ensures Classified(diff) == [first, second]
  {
    var ds := Classified(diff);
    assert ds[0] == first;
    assert ds[1] == second;
  }

  /** A header naming `file`, then a hunk adding lines `start` to `end`. */
  lemma HeaderHunkIndex(diff: seq<string>, file: string)
    requires |diff| == 2
    requires ClassifyDiff(diff[0]) == Header(file) && ClassifyDiff(diff[1]).Hunk?
    ensures var hunk := ClassifyDiff(diff[1]);
            ChangedLines(diff) == map[Some(file) := Interval(hunk.start, hunk.end)]
  {
    var hunk := ClassifyDiff(diff[1]);
    ClassifiedPair(diff, Header(file), hunk);
    ScanHeaderHunk(file, hunk.start, hunk.end);
  }

  lemma ThreeToFive()
    ensures Interval(3, 5) == {3, 4, 5}
  {
  }

  lemma ExampleIndex(diff: seq<string>)
    requires diff == [HeaderLine, HunkLine]
    ensures ChangedLines(diff) == map[Some("foo.py") := {3, 4, 5}]
  {
    ClassifyHeaderLine(diff[0]);
    ClassifyHunkLine(diff[1]);
    HeaderHunkIndex(diff, "foo.py");
    ThreeToFive();
  }

  /** Two message lines whose second code is not a continuation form two
      groups. */
  lemma TwoMessages(classify: Classifier, lint: seq<string>, ra: Report, rb: Report)
    requires |lint| == 2
    requires classify(lint[0]) == Message(ra) && classify(lint[1]) == Message(rb)
    requires rb.code !in ContinuationCodes
    ensures Segment(classify, lint) ==
              [Group([Location(ra.file, ra.line)], [lint[0]]), Group([Location(rb.file, rb.line)], [lint[1]])]
  {
    var la := Location(ra.file, ra.line);
    var lb := Location(rb.file, rb.line);
    var st := Step(classify, Start, lint[0]);
    assert st == State([la], [lint[0]], true, []);
    var st' := Step(classify, st, lint[1]);
    assert st' == State([lb], [lint[1]], true, [Group([la], [lint[0]])]);
    assert Run(classify, Start, lint) == Run(classify, st, lint[1..]);
    assert Run(classify, st, lint[1..]) == Run(classify, st', lint[2..]);
  }

  lemma OutputPair(index: Index, g: Group, h: Group)
    ensures Output(index, [g, h]) ==
              (if Forwarded(index, g) then [g.lines] else []) + (if Forwarded(index, h) then [h.lines] else [])
  {
    assert [g, h] == [g] + [h];
    SelectedAppend(index, [g], [h]);
    SelectedOne(index, g);
    SelectedOne(index, h);
  }

  /** The two warnings of the example, as the lint tool's patterns read
      them. */
  predicate TwoWarnings(lint: seq<string>) {
    && |lint| == 2
    && ClassifyLint(lint[0]) == Message(Report("foo.py", 3, "100"))
    && ClassifyLint(lint[1]) == Message(Report("foo.py", 10, "100"))
  }

  lemma ExampleWarnings(lint: seq<string>)
    requires lint == [Hit, Miss]
    ensures TwoWarnings(lint)
  {
    ClassifyHit(lint[0]);
    ClassifyMiss(lint[1]);
  }

  /** Two warnings in `foo.py`, at lines 3 and 10, form two groups; each is
      printed exactly when its line is changed. */
  lemma TwoWarningsUnder(classify: Classifier, index: Index, lint: seq<string>)
    requires |lint| == 2
    requires classify(lint[0]) == Message(Report("foo.py", 3, "100"))
    requires classify(lint[1]) == Message(Report("foo.py", 10, "100"))
    ensures Output(index, Segment(classify, lint)) ==
              (if Hits(index, Location("foo.py", 3)) then [[lint[0]]] else []) +
              (if Hits(index, Location("foo.py", 10)) then [[lint[1]]] else [])
  {
    TwoMessages(classify, lint, Report("foo.py", 3, "100"), Report("foo.py", 10, "100"));
    var g, h := Group([Location("foo.py", 3)], [lint[0]]), Group([Location("foo.py", 10)], [lint[1]]);
    assert Forwarded(index, g) <==> Hits(index, g.locations[0]);
    assert Forwarded(index, h) <==> Hits(index, h.locations[0]);
    OutputPair(index, g, h);
  }

  /** A header, then a change hunk adding lines 3 to 5 of `foo.py`: of two
      warnings in `foo.py`, only the one on a changed line is printed. */
  lemma ExampleChangedLineOnly(diff: seq<string>, lint: seq<string>)
    requires diff == [HeaderLine, HunkLine] && TwoWarnings(lint)
    ensures LintDiff(diff, lint) == [[lint[0]]]
  {
    ExampleIndex(diff);
    FirstWarningOnly(ClassifyLint, ChangedLines(diff), lint);
  }

  lemma FirstWarningOnly(classify: Classifier, index: Index, lint: seq<string>)
    requires index == map[Some("foo.py") := {3, 4, 5}]
    requires |lint| == 2
    requires classify(lint[0]) == Message(Report("foo.py", 3, "100"))
    requires classify(lint[1]) == Message(Report("foo.py", 10, "100"))
    ensures Output(index, Segment(classify, lint)) == [[lint[0]]]
  {
    TwoWarningsUnder(classify, index, lint);
    assert Hits(index, Location("foo.py", 3));
    assert !Hits(index, Location("foo.py", 10));
  }

  /** When the header names `b`, the hunk is filed under `b` and neither
      warning in `foo.py` is printed. */
  lemma ExampleOtherFile(diff: seq<string>, lint: seq<string>)
    requires diff == [ShortHeaderLine, HunkLine] && TwoWarnings(lint)
    ensures ChangedLines(diff) == map[Some("b") := {3, 4, 5}]
    ensures LintDiff(diff, lint) == []
  {
    OtherFileIndex(diff);
    TwoWarningsUnder(ClassifyLint, ChangedLines(diff), lint);
  }

  lemma OtherFileIndex(diff: seq<string>)
    requires diff == [ShortHeaderLine, HunkLine]
    ensures ChangedLines(diff) == map[Some("b") := {3, 4, 5}]
  {
    ClassifyShortHeaderLine(diff[0]);
    ClassifyHunkLine(diff[1]);
    HeaderHunkIndex(diff, "b");
    ThreeToFive();
  }

  /** A hunk before any header is filed under `None` and makes no warning
      print. */
  lemma ExampleNoHeader(diff: seq<string>, lint: seq<string>)
    requires diff == [HunkLine] && TwoWarnings(lint)
    ensures ChangedLines(diff) == map[None := {3, 4, 5}]
    ensures LintDiff(diff, lint) == []
  {
    NoHeaderIndex(diff);
    TwoWarningsUnder(ClassifyLint, ChangedLines(diff), lint);
  }

  lemma NoHeaderIndex(diff: seq<string>)
    requires diff == [HunkLine]
    ensures ChangedLines(diff) == map[None := {3, 4, 5}]
  {
    ClassifyHunkLine(diff[0]);
    HunkOnlyIndex(diff);
    ThreeToFive();
  }

  /** A single hunk, with no header before it. */
  lemma HunkOnlyIndex(diff: seq<string>)
    requires |diff| == 1 && ClassifyDiff(diff[0]).Hunk?
    ensures var hunk := ClassifyDiff(diff[0]);
            ChangedLines(diff) == map[None := Interval(hunk.start, hunk.end)]
  {
    var hunk := ClassifyDiff(diff[0]);
    ClassifiedSingle(diff, hunk);
    ScanHunk(hunk.start, hunk.end);
  }

  lemma ClassifiedSingle(diff: seq<string>, only: DiffLine)
    requires |diff| == 1 && ClassifyDiff(diff[0]) == only
    ensures Classified(diff) == [only]
  {
    var ds := Classified(diff);
    assert ds[0] == only;
  }

  lemma ScanHunk(start: nat, end: nat)
    ensures Scan([Hunk(start, end)]).index == map[None := Interval(start, end)]
  {
    var ds := [Hunk(start, end)];
    assert ds[..0] == [];
    assert Lookup(map[], None) + Interval(start, end) == Interval(start, end);
  }

  /** A delete hunk under a header adds nothing, not even the file. */
  lemma ExampleDelete(diff: seq<string>)
    requires diff == [HeaderLine, DeleteLine]
    ensures ChangedLines(diff) == map[]
  {
    ClassifyHeaderLine(diff[0]);
    ClassifyDeleteLine(diff[1]);
    HeaderIgnoredIndex(diff, "foo.py");
  }

  lemma HeaderIgnoredIndex(diff: seq<string>, file: string)
    requires |diff| == 2
    requires ClassifyDiff(diff[0]) == Header(file) && ClassifyDiff(diff[1]) == Ignored
    ensures ChangedLines(diff) == map[]
  {
    ClassifiedPair(diff, Header(file), Ignored);
    ScanHeaderIgnored(file);
  }

  lemma ScanHeaderIgnored(file: string)
    ensures Scan([Header(file), Ignored]).index == map[]
  {
    var ds := [Header(file), Ignored];
    assert ds[..1] == [Header(file)] && ds[..1][..0] == [];
    assert Scan(ds[..1]) == Builder(Some(file), map[]);
    assert Scan(ds) == Scan(ds[..1]);
  }

  /** A banner followed by a warning on a changed line: both are printed, as
      two groups, in input order. */
  lemma ExampleBanner(diff: seq<string>, lint: seq<string>)
    requires diff == [HeaderLine, HunkLine]
    requires |lint| == 2 && lint[0] == Banner
    requires ClassifyLint(lint[1]) == Message(Report("foo.py", 3, "5"))
    ensures GetMessages(lint) == [Group([], [lint[0]]), Group([Location("foo.py", 3)], [lint[1]])]
    ensures LintDiff(diff, lint) == [[lint[0]], [lint[1]]]
  {
    ClassifyBanner(lint[0]);
    ExampleIndex(diff);
    BannerOutput(ClassifyLint, ChangedLines(diff), lint);
  }

  lemma BannerOutput(classify: Classifier, index: Index, lint: seq<string>)
    requires index == map[Some("foo.py") := {3, 4, 5}]
    requires |lint| == 2
    requires classify(lint[0]) == Verbose && classify(lint[1]) == Message(Report("foo.py", 3, "5"))
    ensures Segment(classify, lint) == [Group([], [lint[0]]), Group([Location("foo.py", 3)], [lint[1]])]
    ensures Output(index, Segment(classify, lint)) == [[lint[0]], [lint[1]]]
  {
    BannerThenMessage(classify, lint, Report("foo.py", 3, "5"));
    var g, h := Group([], [lint[0]]), Group([Location("foo.py", 3)], [lint[1]]);
    assert Hits(index, h.locations[0]);
    OutputPair(index, g, h);
  }

  /** A verbose line, then a message: the banner stands alone and the
      message starts the next group. */
  lemma BannerThenMessage(classify: Classifier, lint: seq<string>, r: Report)
    requires |lint| == 2
    requires classify(lint[0]) == Verbose && classify(lint[1]) == Message(r)
    ensures Segment(classify, lint) == [Group([], [lint[0]]), Group([Location(r.file, r.line)], [lint[1]])]
  {
    var st := Step(classify, Start, lint[0]);
    assert Start.emitted + [] + [Group([], [lint[0]])] == [Group([], [lint[0]])];
    assert st == State([], [], false, [Group([], [lint[0]])]);
    assert st.locations + [Location(r.file, r.line)] == [Location(r.file, r.line)];
    assert st.buffer + [lint[1]] == [lint[1]];
    var st' := Step(classify, st, lint[1]);
    assert st' == State([Location(r.file, r.line)], [lint[1]], true, [Group([], [lint[0]])]);
    assert Run(classify, Start, lint) == Run(classify, st, lint[1..]);
    assert Run(classify, st, lint[1..]) == Run(classify, st', lint[2..]);
  }
}
