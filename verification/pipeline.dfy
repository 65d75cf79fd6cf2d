/** The whole pipeline: build the change index from the diff output, split
    the lint output into message groups, and print the groups that touch a
    changed line. */
module Pipeline {
  import opened Wrappers
  import opened LintLines
  import opened ChangeIndex
  import opened Segmenter
  import opened Filter

  /** The groups printed for the diff output `diff` and lint output `lint`. */
  function LintDiff(diff: seq<string>, lint: seq<string>): seq<seq<string>> {
    Output(ChangedLines(diff), GetMessages(lint))
  }

  /** The two calls of the `__main__` block, one after the other:
      `process_diff_list` on the diff output, then `process_lint_output` on
      the lint output. */
  method ProcessLint(diff: seq<string>, lint: seq<string>) returns (out: seq<seq<string>>)
    ensures out == LintDiff(diff, lint)
  {
    var index := ProcessDiffList(diff);
    out := ProcessLintOutput(index, GetMessages(lint));
  }

  /** Every location a message line of `lint` names is a changed line. */
  predicate MessagesHit(classify: Classifier, index: Index, lint: seq<string>) {
    forall j, loc :: 0 <= j < |lint| && loc in LocationOf(classify, lint[j]) ==> Hits(index, loc)
  }

  /** No location a message line of `lint` names is a changed line. */
  predicate MessagesMiss(classify: Classifier, index: Index, lint: seq<string>) {
    forall j, loc :: 0 <= j < |lint| && loc in LocationOf(classify, lint[j]) ==> !Hits(index, loc)
  }

  /** A location of a group comes from one of the group's own lines. */
  lemma {:induction false} LocationsComeFromLines(classify: Classifier, lines: seq<string>)
    ensures forall loc :: loc in LocationsIn(classify, lines) ==>
              exists j :: 0 <= j < |lines| && loc in LocationOf(classify, lines[j])
  {
    if |lines| > 0 {
      var init := lines[..|lines| - 1];
      LocationsComeFromLines(classify, init);
      forall loc | loc in LocationsIn(classify, lines)
        ensures exists j :: 0 <= j < |lines| && loc in LocationOf(classify, lines[j])
      {
        if loc in LocationsIn(classify, init) {
          var j :| 0 <= j < |init| && loc in LocationOf(classify, init[j]);
          assert lines[j] == init[j];
        } else {
          assert loc in LocationOf(classify, lines[|lines| - 1]);
        }
      }
    }
  }

  /** Every line of a group is a line of the output of all groups. */
  lemma {:induction false} GroupLinesAreLines(gs: seq<Group>)
    ensures forall i, x :: 0 <= i < |gs| && x in gs[i].lines ==> x in Lines(gs)
  {
    if |gs| > 0 {
      GroupLinesAreLines(gs[..|gs| - 1]);
      assert forall i :: 0 <= i < |gs| - 1 ==> gs[..|gs| - 1][i] == gs[i];
    }
  }

  /** A location of any group is named by some line of the input. */
  lemma GroupLocationsFromInput(classify: Classifier, lint: seq<string>, i: int, loc: Location)
    requires 0 <= i < |Segment(classify, lint)|
    requires loc in Segment(classify, lint)[i].locations
    ensures exists j :: 0 <= j < |lint| && loc in LocationOf(classify, lint[j])
  {
    var gs := Segment(classify, lint);
    GroupsWellFormed(classify, lint);
    GroupsCoverInput(classify, lint);
    LocationsComeFromLines(classify, gs[i].lines);
    var k :| 0 <= k < |gs[i].lines| && loc in LocationOf(classify, gs[i].lines[k]);
    GroupLinesAreLines(gs);
    assert gs[i].lines[k] in lint;
  }

  /** When every message names a changed line, the whole lint output is
      printed, verbatim and in order. */
  lemma AllHitsPrintEverything(classify: Classifier, index: Index, lint: seq<string>)
    requires MessagesHit(classify, index, lint)
    ensures Flatten(Output(index, Segment(classify, lint))) == lint
  {
    var gs := Segment(classify, lint);
    forall i | 0 <= i < |gs|
      ensures Forwarded(index, gs[i])
    {
      if |gs[i].locations| > 0 {
        GroupLocationsFromInput(classify, lint, i, gs[i].locations[0]);
      }
    }
    AllForwardedKeepsAll(index, gs);
    FlattenTexts(gs);
    GroupsCoverInput(classify, lint);
  }

  /** When no message names a changed line, only the groups without
      locations (banners and free text) are printed. */
  lemma NoHitsPrintOnlyUnanchored(classify: Classifier, index: Index, lint: seq<string>)
    requires MessagesMiss(classify, index, lint)
    ensures Output(index, Segment(classify, lint)) == Texts(Unanchored(Segment(classify, lint)))
  {
    var gs := Segment(classify, lint);
    forall i, k | 0 <= i < |gs| && 0 <= k < |gs[i].locations|
      ensures !Hits(index, gs[i].locations[k])
    {
      GroupLocationsFromInput(classify, lint, i, gs[i].locations[k]);
    }
    NoHitsKeepsOnlyUnanchored(index, gs);
  }

  /** The two cases for the lint tool's own classification. */
  lemma ChangedMessagesPrintEverything(diff: seq<string>, lint: seq<string>)
    requires MessagesHit(ClassifyLint, ChangedLines(diff), lint)
    ensures Flatten(LintDiff(diff, lint)) == lint
  {
    AllHitsPrintEverything(ClassifyLint, ChangedLines(diff), lint);
  }

  lemma UnchangedMessagesAreDropped(diff: seq<string>, lint: seq<string>)
    requires MessagesMiss(ClassifyLint, ChangedLines(diff), lint)
    ensures LintDiff(diff, lint) == Texts(Unanchored(GetMessages(lint)))
  {
    NoHitsPrintOnlyUnanchored(ClassifyLint, ChangedLines(diff), lint);
  }
}
