# lint_diff in Dafny

`lint_diff.py` shows only the lint messages that concern lines a change
touched. It reads two line streams:

- the output of `diff` between an old and a new tree, from which it builds a
  **change index**: for each file (named by the last token of a `diff …`
  header line), the set of new-side line numbers covered by its `a` (add) and
  `c` (change) hunks;
- the output of a lint tool, which it splits into **message groups**: a
  message line (`file: line: Severity code …`) together with the free text
  before it and the continuation messages (codes `830` and `831`) after it.
  Verbose lines (banners starting `---`, `///`, `===` or four whitespace
  characters) form groups of their own.

A group is printed when it names no location, or when one of its locations is
a changed line. This project models the three algorithms of the program:

- `process_diff_list` is `ChangeIndex.ProcessDiffList`. It is a loop over the
  diff, equal to the fold `ChangedLines`.
- `get_messages` is `Segmenter.Segment`. It is the segmenter's state machine,
  `Step`, run over the lint output. `Segmenter.GetMessages` instantiates it
  with the lint tool's line patterns, `LintLines.ClassifyLint`.
- The filtering loop of `process_lint_output` is `Filter.ProcessLintOutput`.
  It is a loop equal to the reference definition `Filter.Output`.

The line patterns are written out exactly, with Python 2 `re` semantics on
byte strings:

- `\s` is space, tab, line feed, vertical tab, form feed or carriage return.
- `\d` is an ASCII digit.
- `$` matches at the end of the line or before one final newline.

Each of the three patterns has a single way to match, so a left-to-right
scanner (`Lexing.Span`) reproduces it. Line numbers are unbounded naturals,
as Python's `int` reads them.

Modules:

- `Wrappers`: `Option`.
- `Lexing`: character classes, `Span`, and decimal numbers.
- `DiffLines`: the header and hunk patterns and their round trips.
- `ChangeIndex`: the index builder.
- `LintLines`: the verbose and message patterns and their round trip.
- `Segmenter`: the state machine.
- `Filter`: the printing decision.
- `Pipeline`: both passes composed.
- `ExampleText` and `ExampleLines`: concrete diff and lint lines, and how
  the patterns read them.
- `Examples`: worked inputs, end to end.

Two consequences of the patterns are worth spelling out:

- The hunk pattern accepts only `a` and `c`, so a delete hunk (`3d2`)
  registers nothing, not even the file's key (`DiffLines.DeleteHunkIgnored`,
  `Examples.ExampleDelete`).
- A header `diff -u a b` files its hunks under `b`
  (`Examples.ExampleOtherFile`).

Numbers are read by `int` from the digits the patterns capture, so a
zero-padded number such as `03` reads as 3 (`ExampleLines.ClassifyPaddedHit`,
`ExampleLines.ClassifyPaddedHunkLine`).

## Model

| member | source | states |
|---|---|---|
| Lexing.Decimal | lint_diff.py:27-30 | Every natural has a non-empty digit rendering that `int` reads back as that number. |
| DiffLines.ParseRange | lint_diff.py:9 | A line is recognised as a hunk exactly when it has the hunk pattern's shape: old-range characters, then `a` or `c`, then a digit. |
| DiffLines.ParseFormatHunk | lint_diff.py:27-30 | A hunk line yields as its start the value of the start's digits (leading zeros included) and, when `,end` is present, the value of the end's digits; otherwise the end is the start. This holds whatever non-digit text follows the number. |
| DiffLines.DeleteHunkIgnored | lint_diff.py:9 | A hunk with action `d` is neither a header nor a recognised hunk. |
| DiffLines.ParseHeaderSound | lint_diff.py:10 | A recognised header is `diff `, a middle part without newline, a space, then a non-empty whitespace-free file name, then optionally one newline. |
| DiffLines.ParseFormatHeader | lint_diff.py:15-17 | Every line of that shape is recognised, and yields the name after the last space. |
| ChangeIndex.Interval | lint_diff.py:27-33 | The lines a hunk adds are exactly `start..end`, inclusive, and there are none when `end < start`. |
| ChangeIndex.ScanCurrent | lint_diff.py:15-18 | The current file is the one named by the last header read, or `None` before any header. |
| ChangeIndex.ScanKey | lint_diff.py:24-25 | A key exists exactly for files (or `None`) under which some recognised hunk was read, even when its range is empty. |
| ChangeIndex.ScanLine | lint_diff.py:27-33 | A line is in a file's set exactly when some hunk read under that file covers it. |
| ChangeIndex.IndexIsUnionOfHunks | lint_diff.py:14-35 | The index is, per file, the union of the ranges of the hunks read while that file was current, in both directions. |
| ChangeIndex.ScanGrows | lint_diff.py:24-33 | Reading more diff never removes a key or a line. |
| ChangeIndex.NonHunkKeepsIndex | lint_diff.py:15-22 | A header line, or a line matching neither pattern, leaves the index unchanged. |
| ChangeIndex.HunkAddsRange | lint_diff.py:24-33 | A recognised hunk adds exactly its range to the current file's set and leaves every other file unchanged. |
| ChangeIndex.AddHunk | lint_diff.py:24-33 | The in-place loop gives the key the union of its old set and the range. |
| ChangeIndex.ProcessDiffList | lint_diff.py:5-35 | The loop over the diff computes the fold `ChangedLines`. |
| LintLines.ParseMessage | lint_diff.py:59-60 | A recognised message's file is the text before the line's first colon, and its code is a non-empty digit string. |
| LintLines.ParseFormatMessage | lint_diff.py:89-93 | For every message line, the file, the line number (the value of its digits, leading zeros included) and the code are recovered, for any whitespace gaps, severity and trailing text. |
| Segmenter.Segment | lint_diff.py:127-128 | There is always a final group, even for empty input. |
| Segmenter.StepKeepsLines | lint_diff.py:78-125 | One step moves the new line into the output or the buffer, and loses or duplicates nothing. |
| Segmenter.RunKeepsLines | lint_diff.py:76-125 | Over any stretch of input, emitted lines plus the buffer are the previous ones plus the input. |
| Segmenter.GroupsCoverInput | lint_diff.py:76-128 | Concatenating the groups gives back the lint output exactly: in order, nothing dropped or duplicated. |
| Segmenter.StepVerboseKeepsInv | lint_diff.py:78-86 | A verbose line preserves `Inv`: emitted groups stay well formed and non-empty, and the buffer's locations come from its message lines. |
| Segmenter.StepMessageKeepsInv | lint_diff.py:89-109 | A message line preserves `Inv`. |
| Segmenter.StepTextKeepsInv | lint_diff.py:112-125 | A free-text line preserves `Inv`. |
| Segmenter.StepKeepsInv | lint_diff.py:78-125 | Each step keeps the invariant: emitted groups are well formed and non-empty, and the buffer's locations come from the buffer's message lines. |
| Segmenter.RunKeepsInv | lint_diff.py:76-125 | The invariant holds after any input. |
| Segmenter.GroupsWellFormed | lint_diff.py:76-128 | Each group's locations are those of its own message lines. Each group is a lone verbose line, free text only, or free text then one message then continuations. Only the last group may be empty. |
| Segmenter.LastGroupIsPending | lint_diff.py:127-128 | The last group is the pending buffer, and it is anchored exactly when the segmenter is in a message. |
| Segmenter.VerboseStandsAlone | lint_diff.py:78-86 | A verbose line flushes a non-empty pending group, forms its own location-free group, and resets the state. |
| Segmenter.NewMessageClosesGroup | lint_diff.py:95-103 | After an anchored group, a message with a code other than `830` or `831` closes the group and starts a new one. |
| Segmenter.ContinuationJoinsGroup | lint_diff.py:104-109 | After an anchored group, an `830` or `831` message joins it, with its location. |
| Segmenter.MessageAnchorsText | lint_diff.py:104-109 | A message after free text joins that text's group and anchors it. |
| Segmenter.TextClosesAnchoredGroup | lint_diff.py:112-120 | Free text after an anchored group closes the group and starts a new unanchored one. |
| Segmenter.TextJoinsText | lint_diff.py:121-125 | Free text after free text joins its group without adding a location. |
| Filter.ProcessLintOutput | lint_diff.py:42-51 | The loop, with its early `break`, prints exactly the groups `Output` selects, in order. |
| Filter.SelectedAppend | lint_diff.py:43 | Filtering goes group by group: the output for two runs of groups is the two outputs concatenated. |
| Filter.SelectedAreForwarded | lint_diff.py:43-51 | Only forwarded groups of the input are printed, unchanged, never more than there are groups, and every forwarded group is printed. |
| Filter.SelectedOne | lint_diff.py:43-51 | A single group is printed once if it is forwarded, and not at all otherwise. |
| Filter.UnanchoredAlwaysForwarded | lint_diff.py:44-46 | A group with no locations is printed whatever the index holds. |
| Filter.AnchoredForwardedOnHit | lint_diff.py:48-51 | A group with locations is printed once if some location's file has a set containing its line, and not at all otherwise. |
| Filter.MoreChangesForwardMore | lint_diff.py:49 | A larger index forwards every group a smaller one does, in the same order. |
| Filter.NoneKeyInert | lint_diff.py:49 | Hunks filed under `None` never cause a group to be printed. |
| Filter.NoHitsKeepsOnlyUnanchored | lint_diff.py:43-51 | When no location hits, exactly the location-free groups are printed. |
| Filter.NoChangedFileKeepsOnlyUnanchored | lint_diff.py:43-51 | With an empty index, or one holding only `None`, exactly the location-free groups are printed. |
| Filter.AllForwardedKeepsAll | lint_diff.py:43-51 | When every group is forwarded, all groups are printed. |
| Filter.FlattenTexts | lint_diff.py:45 | Joining each printed group's lines and writing the groups one after another gives their lines in order. |
| Pipeline.ProcessLint | lint_diff.py:144-147 | Only the composition of the calls at lines 144 and 147 is modelled: building the index from the diff output, then filtering the lint output's groups against it, gives `LintDiff`. |
| Pipeline.LocationsComeFromLines | lint_diff.py:101-108 | Every location of a group is named by one of that group's lines. |
| Pipeline.GroupLocationsFromInput | lint_diff.py:89-108 | Every location of any group is named by some line of the lint output. |
| Pipeline.AllHitsPrintEverything | lint_diff.py:43-51 | When every message names a changed line, the printed text is the whole lint output, verbatim. |
| Pipeline.NoHitsPrintOnlyUnanchored | lint_diff.py:43-51 | When no message names a changed line, only the location-free groups are printed. |
| Pipeline.ChangedMessagesPrintEverything | lint_diff.py:38-51 | The lint tool's own patterns satisfy the all-hits case: everything is printed. |
| Pipeline.UnchangedMessagesAreDropped | lint_diff.py:38-51 | The lint tool's own patterns satisfy the no-hits case: only location-free groups are printed. |
| ExampleLines.ClassifyHeaderLine | lint_diff.py:10 | `diff -u a/foo.py foo.py` is a header for `foo.py`. |
| ExampleLines.ClassifyHunkLine | lint_diff.py:9 | `3,4c3,5` is a hunk for lines 3 to 5. |
| ExampleLines.ClassifyDeleteLine | lint_diff.py:9 | `3d2` is ignored. |
| ExampleLines.ClassifyHit | lint_diff.py:59-60 | `foo.py: 3: Warning 100 unused var` is a message at `foo.py` line 3 with code `100`. |
| ExampleLines.ClassifyMiss | lint_diff.py:59-60 | `foo.py: 10: Warning 100 unused var` is a message at `foo.py` line 10 with code `100`. |
| ExampleLines.ClassifyShortHeaderLine | lint_diff.py:10 | `diff -u a b` is a header for `b`. |
| ExampleLines.ClassifyBanner | lint_diff.py:64 | `----` is verbose. |
| ExampleLines.ClassifyError | lint_diff.py:59-60 | `foo.py: 3: Error 5 bad` is a message at `foo.py` line 3 with code `5`. |
| ExampleLines.ClassifyPaddedHit | lint_diff.py:92 | `foo.py: 03: Warning 100 unused var` is a message at `foo.py` line 3: `int` drops the leading zero. |
| ExampleLines.ClassifyPaddedHunkLine | lint_diff.py:27-30 | `3,4c03,005` is a hunk for lines 3 to 5. |
| Examples.HeaderHunkIndex | lint_diff.py:14-33 | Any header naming a file followed by any recognised hunk gives an index with that file alone, holding exactly the hunk's range. |
| Examples.HunkOnlyIndex | lint_diff.py:11-33 | A lone hunk is filed under `None`. |
| Examples.HeaderIgnoredIndex | lint_diff.py:14-25 | A header followed by an unrecognised line gives the empty index: a header alone creates no key. |
| Examples.ExampleIndex | lint_diff.py:14-33 | A header for `foo.py` followed by `3,4c3,5` gives the index `{foo.py: {3, 4, 5}}`. |
| Examples.ExampleChangedLineOnly | lint_diff.py:38-51 | With that index, of warnings at lines 3 and 10 of `foo.py`, only the first is printed. |
| Examples.ExampleOtherFile | lint_diff.py:15-17 | A header naming `b` files the hunk under `b`, and neither `foo.py` warning is printed. |
| Examples.ExampleNoHeader | lint_diff.py:11 | A hunk before any header is filed under `None`, and neither warning is printed. |
| Examples.ExampleDelete | lint_diff.py:20-22 | A header followed by a delete hunk gives the empty index. |
| Examples.ExampleBanner | lint_diff.py:78-86 | A banner followed by a warning on a changed line gives two groups, and both are printed in input order. |
| Examples.TwoMessages | lint_diff.py:95-103 | Two message lines, the second with a code other than `830` or `831`, form two single-line groups. |

## Left out

- The `__main__` block's lines 131-143 and 146 (lint_diff.py) are not modelled: imports, argument checks and the exit status, and spawning `diff -N` and the lint tool. `Pipeline.ProcessLint` composes the two calls at lines 144 and 147, taking both outputs as sequences of lines instead.
- The `xrange(start, end + 1)` of lint_diff.py:32 raises `OverflowError` in Python 2 when a bound does not fit a C long. Line numbers here are unbounded `nat`, so that error path is not modelled: every hunk adds its whole range.
- File handles are modelled as sequences of lines, each including its newline. Python 2 byte strings are modelled as `string`.
- Writing to standard output is not modelled. Python 2's `print …,` soft space is left out as well. The output is the sequence of printed groups. `Filter.FlattenTexts` relates it to the text the groups hold.
- Generator laziness: `get_messages` is modelled as an eager function returning all groups in order.
- A verbose line is yielded as a bare string; here it is a one-line group. The two print the same text, because `''.join` of a string is the string.
- `Segmenter` takes the line classifier as a parameter. `GetMessages` fixes it to `ClassifyLint`, so every segmenter lemma holds for the lint tool's patterns in particular.
- `Examples` states its end-to-end lint inputs through their classification (`TwoWarnings`). `ExampleWarnings` and the `Classify…` lemmas prove that the concrete lines classify that way.
- DiffLines.ParseHeaderSound: its contract describes only what a recognised header looks like. That every line of that shape is recognised is stated separately by `ParseFormatHeader`.
- LintLines.ParseMessage: its contract states only what a recognised message's file and code look like. That every message line is recognised, with its line number, is stated separately by `ParseFormatMessage`.
- DiffLines.ParseFormatHunk: it does not cover an old range containing characters other than digits and commas, because the hunk pattern does not accept one. A line whose number runs straight into more digits is not covered either, because the number would then be longer.
