/** Splitting lint output into message groups.

    The segmenter reads the lint output once, front to back, holding the
    lines of the group it is building (`buffer`), the locations of the
    message lines among them, and whether one of them is a message line
    (`inMessage`, the group is anchored). It yields `(locations, lines)`
    groups in input order:

    - a verbose line closes the pending group (when it holds any line) and is
      yielded alone, with no locations;
    - a message line joins the pending group when it is unanchored (free text
      before a message belongs to that message) or when its code is a
      continuation code; otherwise it closes the pending group and starts a
      new one;
    - free text joins an unanchored pending group, but closes an anchored one
      and starts a new unanchored group;
    - at the end the pending group is yielded, even when it holds no line. */
module Segmenter {
  import opened Lexing
  import opened LintLines

  /** Codes of messages that add detail to the message before them. They are
      compared as strings, so `0830` is not one of them. */
  const ContinuationCodes: set<string> := {"830", "831"}

  /** What a line is to the segmenter. The lint tool's patterns give
      `ClassifyLint`; the segmenter works for any classifier. */
  type Classifier = string -> LintLine

  datatype Location = Location(file: string, line: nat)

  datatype Group = Group(locations: seq<Location>, lines: seq<string>)

  /** The segmenter's variables, plus the groups yielded so far. */
  datatype State = State(locations: seq<Location>, buffer: seq<string>, inMessage: bool, emitted: seq<Group>)

  const Start: State := State([], [], false, [])

  function Pending(st: State): Group {
    Group(st.locations, st.buffer)
  }

  /** One iteration of the segmenter's loop. */
  function Step(classify: Classifier, st: State, line: string): State {
    match classify(line)
    case Verbose =>
      var flushed := if |st.buffer| > 0 then [Pending(st)] else [];
      State([], [], false, st.emitted + flushed + [Group([], [line])])
    case Message(r) =>
      var here := Location(r.file, r.line);
      if st.inMessage && r.code !in ContinuationCodes then
        State([here], [line], true, st.emitted + [Pending(st)])
      else
        State(st.locations + [here], st.buffer + [line], true, st.emitted)
    case Text =>
      if st.inMessage then
        State([], [line], false, st.emitted + [Pending(st)])
      else
        st.(buffer := st.buffer + [line])
  }

  function Run(classify: Classifier, st: State, lines: seq<string>): State
    decreases |lines|
  {
    if |lines| == 0 then st else Run(classify, Step(classify, st, lines[0]), lines[1..])
  }

  /** All groups of the lint output `lint`, the final pending one included. */
  function Segment(classify: Classifier, lint: seq<string>): (gs: seq<Group>)
    ensures |gs| > 0
  {
    var st := Run(classify, Start, lint);
    st.emitted + [Pending(st)]
  }

  /** The groups of the lint tool's output. */
  function GetMessages(lint: seq<string>): seq<Group> {
    Segment(ClassifyLint, lint)
  }

  // ---------------------------------------------------------------------------
  // Vocabulary for the properties
  // ---------------------------------------------------------------------------

  /** The lines of all groups, one group after another. */
  function Lines(gs: seq<Group>): seq<string> {
    if |gs| == 0 then [] else Lines(gs[..|gs| - 1]) + gs[|gs| - 1].lines
  }

  /** The location a line names, if it is a message line. */
  function LocationOf(classify: Classifier, line: string): seq<Location> {
    match classify(line)
    case Message(r) => [Location(r.file, r.line)]
    case _ => []
  }

  /** The locations the message lines among `lines` name, in order. */
  function LocationsIn(classify: Classifier, lines: seq<string>): seq<Location> {
    if |lines| == 0 then [] else LocationsIn(classify, lines[..|lines| - 1]) + LocationOf(classify, lines[|lines| - 1])
  }

  function IsText(classify: Classifier): string -> bool {
    line => classify(line).Text?
  }

  predicate IsContinuation(classify: Classifier, line: string) {
    classify(line).Message? && classify(line).report.code in ContinuationCodes
  }

  predicate AllText(classify: Classifier, lines: seq<string>) {
    forall i :: 0 <= i < |lines| ==> IsText(classify)(lines[i])
  }

  /** Free text, then one message line, then continuation message lines. */
  predicate Anchored(classify: Classifier, lines: seq<string>) {
    var k := Span(lines, IsText(classify));
    && k < |lines|
    && classify(lines[k]).Message?
    && forall j :: k < j < |lines| ==> IsContinuation(classify, lines[j])
  }

  predicate IsVerboseGroup(classify: Classifier, lines: seq<string>) {
    |lines| == 1 && classify(lines[0]).Verbose?
  }

  /** The shapes a group can have, and its locations drawn from its own lines. */
  predicate WellFormed(classify: Classifier, g: Group) {
    && g.locations == LocationsIn(classify, g.lines)
    && (IsVerboseGroup(classify, g.lines) || AllText(classify, g.lines) || Anchored(classify, g.lines))
  }

  ghost predicate Inv(classify: Classifier, st: State) {
    && EmittedWellFormed(classify, st.emitted)
    && st.locations == LocationsIn(classify, st.buffer)
    && (if st.inMessage then Anchored(classify, st.buffer) else AllText(classify, st.buffer))
  }

  // ---------------------------------------------------------------------------
  // Completeness
  // ---------------------------------------------------------------------------

  lemma LinesAppend(gs: seq<Group>, g: Group)
    ensures Lines(gs + [g]) == Lines(gs) + g.lines
  {
    assert (gs + [g])[..|gs|] == gs;
  }

  lemma StepKeepsLines(classify: Classifier, st: State, line: string)
    ensures Lines(Step(classify, st, line).emitted) + Step(classify, st, line).buffer == Lines(st.emitted) + st.buffer + [line]
  {
    var E := st.emitted;
    match classify(line) {
      case Verbose =>
        if |st.buffer| > 0 {
          LinesAppend(E, Pending(st));
          LinesAppend(E + [Pending(st)], Group([], [line]));
        } else {
          assert E + [] == E;
          LinesAppend(E, Group([], [line]));
        }
      case Message(r) =>
        if st.inMessage && r.code !in ContinuationCodes {
          LinesAppend(E, Pending(st));
        }
      case Text =>
        if st.inMessage {
          LinesAppend(E, Pending(st));
        }
    }
  }

  lemma {:induction false} RunKeepsLines(classify: Classifier, st: State, lines: seq<string>)
    ensures Lines(Run(classify, st, lines).emitted) + Run(classify, st, lines).buffer == Lines(st.emitted) + st.buffer + lines
    decreases |lines|
  {
    if |lines| > 0 {
      StepKeepsLines(classify, st, lines[0]);
      RunKeepsLines(classify, Step(classify, st, lines[0]), lines[1..]);
      assert [lines[0]] + lines[1..] == lines;
    }
  }

  /** Completeness: the groups, put back together, are exactly the lint
      output, every line once and in order. */
  lemma {:induction false} GroupsCoverInput(classify: Classifier, lint: seq<string>)
    ensures Lines(Segment(classify, lint)) == lint
  {
    var st := Run(classify, Start, lint);
    RunKeepsLines(classify, Start, lint);
    LinesAppend(st.emitted, Pending(st));
  }

  // ---------------------------------------------------------------------------
  // Group shapes and locations
  // ---------------------------------------------------------------------------

  lemma LocationsAppend(classify: Classifier, lines: seq<string>, line: string)
    ensures LocationsIn(classify, lines + [line]) == LocationsIn(classify, lines) + LocationOf(classify, line)
  {
    assert (lines + [line])[..|lines|] == lines;
  }

  lemma LocationsOfText(classify: Classifier, lines: seq<string>)
    requires AllText(classify, lines)
    ensures LocationsIn(classify, lines) == []
  {
    if |lines| > 0 {
      LocationsOfText(classify, lines[..|lines| - 1]);
    }
  }

  lemma AllTextSpan(classify: Classifier, lines: seq<string>)
    requires AllText(classify, lines)
    ensures Span(lines, IsText(classify)) == |lines|
  {
    SpanIs(lines, IsText(classify), |lines|);
  }

  /** A group cannot be both free text only and anchored. */
  lemma TextIsNotAnchored(classify: Classifier, lines: seq<string>)
    requires AllText(classify, lines)
    ensures !Anchored(classify, lines)
  {
    AllTextSpan(classify, lines);
  }

  lemma AnchorText(classify: Classifier, lines: seq<string>, line: string)
    requires AllText(classify, lines) && classify(line).Message?
    ensures Anchored(classify, lines + [line])
  {
    AllTextSpan(classify, lines);
    SpanAppend(lines, [line], IsText(classify));
    SpanIs([line], IsText(classify), 0);
  }

  lemma ExtendAnchored(classify: Classifier, lines: seq<string>, line: string)
    requires Anchored(classify, lines) && IsContinuation(classify, line)
    ensures Anchored(classify, lines + [line])
  {
    SpanStopsEarly(lines, [line], IsText(classify));
    var k := Span(lines, IsText(classify));
    assert (lines + [line])[k] == lines[k];
  }

  /** The groups already yielded are well formed and non-empty. */
  predicate EmittedWellFormed(classify: Classifier, gs: seq<Group>) {
    forall i :: 0 <= i < |gs| ==> WellFormed(classify, gs[i]) && |gs[i].lines| > 0
  }

  lemma EmitWellFormed(classify: Classifier, gs: seq<Group>, g: Group)
    requires EmittedWellFormed(classify, gs)
    requires WellFormed(classify, g) && |g.lines| > 0
    ensures EmittedWellFormed(classify, gs + [g])
  {
  }

  /** The pending group of a state that keeps the invariant is well formed. */
  lemma PendingWellFormed(classify: Classifier, st: State)
    requires Inv(classify, st)
    ensures WellFormed(classify, Pending(st))
  {
  }

  /** A group of one message line is anchored, with that line's location. */
  lemma LoneMessage(classify: Classifier, line: string)
    requires classify(line).Message?
    ensures LocationsIn(classify, [line]) == LocationOf(classify, line)
    ensures Anchored(classify, [line])
  {
    LocationsAppend(classify, [], line);
    assert [] + [line] == [line];
    AnchorText(classify, [], line);
  }

  lemma LoneLine(classify: Classifier, line: string)
    ensures LocationsIn(classify, [line]) == LocationOf(classify, line)
  {
    LocationsAppend(classify, [], line);
    assert [] + [line] == [line];
  }

  lemma StepVerboseKeepsInv(classify: Classifier, st: State, line: string)
    requires Inv(classify, st) && classify(line).Verbose?
    ensures Inv(classify, Step(classify, st, line))
  {
    var flushed := if |st.buffer| > 0 then [Pending(st)] else [];
    if |st.buffer| > 0 {
      PendingWellFormed(classify, st);
      EmitWellFormed(classify, st.emitted, Pending(st));
    } else {
      assert st.emitted + flushed == st.emitted;
    }
    LoneLine(classify, line);
    assert WellFormed(classify, Group([], [line]));
    EmitWellFormed(classify, st.emitted + flushed, Group([], [line]));
    assert AllText(classify, []);
  }

  lemma StepMessageKeepsInv(classify: Classifier, st: State, line: string)
    requires Inv(classify, st) && classify(line).Message?
    ensures Inv(classify, Step(classify, st, line))
  {
    var r := classify(line).report;
    if st.inMessage && r.code !in ContinuationCodes {
      PendingWellFormed(classify, st);
      assert |st.buffer| > 0;
      EmitWellFormed(classify, st.emitted, Pending(st));
      LoneMessage(classify, line);
    } else {
      LocationsAppend(classify, st.buffer, line);
      if st.inMessage {
        ExtendAnchored(classify, st.buffer, line);
      } else {
        AnchorText(classify, st.buffer, line);
      }
    }
  }

  lemma TextAppend(classify: Classifier, lines: seq<string>, line: string)
    requires AllText(classify, lines) && classify(line).Text?
    ensures AllText(classify, lines + [line])
    ensures LocationsIn(classify, lines + [line]) == LocationsIn(classify, lines)
  {
    LocationsAppend(classify, lines, line);
  }

  lemma StepTextKeepsInv(classify: Classifier, st: State, line: string)
    requires Inv(classify, st) && classify(line).Text?
    ensures Inv(classify, Step(classify, st, line))
  {
    if st.inMessage {
      PendingWellFormed(classify, st);
      assert |st.buffer| > 0;
      EmitWellFormed(classify, st.emitted, Pending(st));
      TextAppend(classify, [], line);
      assert [] + [line] == [line];
    } else {
      TextAppend(classify, st.buffer, line);
    }
  }

  lemma StepKeepsInv(classify: Classifier, st: State, line: string)
    requires Inv(classify, st)
    ensures Inv(classify, Step(classify, st, line))
  {
    match classify(line) {
      case Verbose => StepVerboseKeepsInv(classify, st, line);
      case Message(_) => StepMessageKeepsInv(classify, st, line);
      case Text => StepTextKeepsInv(classify, st, line);
    }
  }

  lemma {:induction false} RunKeepsInv(classify: Classifier, st: State, lines: seq<string>)
    requires Inv(classify, st)
    ensures Inv(classify, Run(classify, st, lines))
    decreases |lines|
  {
    if |lines| > 0 {
      StepKeepsInv(classify, st, lines[0]);
      RunKeepsInv(classify, Step(classify, st, lines[0]), lines[1..]);
    }
  }

  /** Every group's locations are exactly those its own message lines name,
      in order; every group is a lone verbose line, free text only, or free
      text followed by one message and its continuations; and only the final
      group can be empty. */
  lemma {:induction false} GroupsWellFormed(classify: Classifier, lint: seq<string>)
    ensures forall i :: 0 <= i < |Segment(classify, lint)| ==> Segment(classify, lint)[i].locations == LocationsIn(classify, Segment(classify, lint)[i].lines)
    ensures forall i :: 0 <= i < |Segment(classify, lint)| ==> WellFormed(classify, Segment(classify, lint)[i])
    ensures forall i :: 0 <= i < |Segment(classify, lint)| - 1 ==> |Segment(classify, lint)[i].lines| > 0
  {
    RunKeepsInv(classify, Start, lint);
    var st := Run(classify, Start, lint);
    assert WellFormed(classify, Pending(st));
  }

  // ---------------------------------------------------------------------------
  // How one more line changes the groups
  // ---------------------------------------------------------------------------

  function Last(gs: seq<Group>): Group
    requires |gs| > 0
  {
    gs[|gs| - 1]
  }

  function AllButLast(gs: seq<Group>): seq<Group>
    requires |gs| > 0
  {
    gs[..|gs| - 1]
  }

  /** The groups without the final one when it holds no line. */
  function Settled(gs: seq<Group>): seq<Group>
    requires |gs| > 0
  {
    if |Last(gs).lines| == 0 then AllButLast(gs) else gs
  }

  lemma {:induction false} RunAppend(classify: Classifier, st: State, xs: seq<string>, ys: seq<string>)
    ensures Run(classify, st, xs + ys) == Run(classify, Run(classify, st, xs), ys)
    decreases |xs|
  {
    if |xs| == 0 {
      assert xs + ys == ys;
    } else {
      assert (xs + ys)[1..] == xs[1..] + ys;
      RunAppend(classify, Step(classify, st, xs[0]), xs[1..], ys);
    }
  }

  function Shift(st: State, before: seq<Group>): State {
    st.(emitted := before + st.emitted)
  }

  lemma StepShift(classify: Classifier, st: State, line: string)
    ensures Step(classify, st, line) == Shift(Step(classify, st.(emitted := []), line), st.emitted)
  {
    var E := st.emitted;
    match classify(line) {
      case Verbose =>
        var flushed := if |st.buffer| > 0 then [Pending(st)] else [];
        assert E + flushed + [Group([], [line])] == E + ([] + flushed + [Group([], [line])]);
      case Message(r) =>
        assert E + [Pending(st)] == E + ([] + [Pending(st)]);
        assert E == E + [];
      case Text =>
        assert E + [Pending(st)] == E + ([] + [Pending(st)]);
        assert E == E + [];
    }
  }

  /** The groups already yielded play no part in what comes next. */
  lemma {:induction false} RunShift(classify: Classifier, st: State, lines: seq<string>)
    ensures Run(classify, st, lines) == Shift(Run(classify, st.(emitted := []), lines), st.emitted)
    decreases |lines|
  {
    if |lines| == 0 {
      assert st.emitted + [] == st.emitted;
    } else {
      var st0 := st.(emitted := []);
      var next := Step(classify, st, lines[0]);
      var next0 := Step(classify, st0, lines[0]);
      StepShift(classify, st, lines[0]);
      StepShift(classify, st0, lines[0]);
      assert next.(emitted := []) == next0.(emitted := []);
      RunShift(classify, next, lines[1..]);
      RunShift(classify, next0, lines[1..]);
      var r := Run(classify, next0.(emitted := []), lines[1..]);
      assert next.emitted == st.emitted + next0.emitted;
      assert st.emitted + next0.emitted + r.emitted == st.emitted + (next0.emitted + r.emitted);
    }
  }

  lemma RunOne(classify: Classifier, st: State, line: string)
    ensures Run(classify, st, [line]) == Step(classify, st, line)
  {
    assert [line][1..] == [];
  }

  /** The state after `xs + [line]`, from the state after `xs`. */
  lemma RunSnoc(classify: Classifier, xs: seq<string>, line: string)
    ensures Run(classify, Start, xs + [line]) == Step(classify, Run(classify, Start, xs), line)
  {
    RunAppend(classify, Start, xs, [line]);
    RunOne(classify, Run(classify, Start, xs), line);
  }

  /** The last group of the output is the pending group, which is either
      free text only or anchored, never both. */
  lemma LastGroupIsPending(classify: Classifier, xs: seq<string>)
    ensures Last(Segment(classify, xs)) == Pending(Run(classify, Start, xs))
    ensures AllButLast(Segment(classify, xs)) == Run(classify, Start, xs).emitted
    ensures Run(classify, Start, xs).inMessage <==> Anchored(classify, Last(Segment(classify, xs)).lines)
    ensures !Run(classify, Start, xs).inMessage <==> AllText(classify, Last(Segment(classify, xs)).lines)
  {
    var st := Run(classify, Start, xs);
    RunKeepsInv(classify, Start, xs);
    assert (st.emitted + [Pending(st)])[..|st.emitted|] == st.emitted;
    if st.inMessage {
      if AllText(classify, st.buffer) {
        TextIsNotAnchored(classify, st.buffer);
      }
    } else {
      TextIsNotAnchored(classify, st.buffer);
    }
  }

  /** A verbose line closes the pending group (when it holds any line), is a
      group of its own with no locations, and leaves the segmenter as it was
      at the start: what follows is grouped as if read on its own. */
  lemma VerboseStandsAlone(classify: Classifier, xs: seq<string>, v: string, ys: seq<string>)
    requires classify(v).Verbose?
    ensures Segment(classify, xs + [v] + ys) == Settled(Segment(classify, xs)) + [Group([], [v])] + Segment(classify, ys)
  {
    var st := Run(classify, Start, xs);
    var next := Step(classify, st, v);
    RunSnoc(classify, xs, v);
    RunAppend(classify, Start, xs + [v], ys);
    LastGroupIsPending(classify, xs);
    assert next == Shift(Start, next.emitted);
    RunShift(classify, next, ys);
    assert next.(emitted := []) == Start;
    assert next.emitted == Settled(Segment(classify, xs)) + [Group([], [v])] by {
      if |st.buffer| > 0 {
        assert Segment(classify, xs) == st.emitted + [Pending(st)];
      } else {
        assert st.emitted + [] == st.emitted;
      }
    }
  }

  /** A message line with a code that is not a continuation code, after an
      anchored group, closes that group and starts a new one: the output is
      the output so far followed by the groups of the rest read on its own. */
  lemma NewMessageClosesGroup(classify: Classifier, xs: seq<string>, m: string, ys: seq<string>)
    requires Anchored(classify, Last(Segment(classify, xs)).lines)
    requires classify(m).Message? && classify(m).report.code !in ContinuationCodes
    ensures Segment(classify, xs + [m] + ys) == Segment(classify, xs) + Segment(classify, [m] + ys)
  {
    var st := Run(classify, Start, xs);
    LastGroupIsPending(classify, xs);
    var next := Step(classify, st, m);
    var first := Step(classify, Start, m);
    RunSnoc(classify, xs, m);
    RunAppend(classify, Start, xs + [m], ys);
    RunAppend(classify, Start, [m], ys);
    RunOne(classify, Start, m);
    assert next == Shift(first, Segment(classify, xs));
    RunShift(classify, next, ys);
    RunShift(classify, first, ys);
    assert first.emitted == [];
    assert next.(emitted := []) == first.(emitted := []);
  }

  /** Free text after an anchored group closes that group and starts a new
      unanchored one. */
  lemma TextClosesAnchoredGroup(classify: Classifier, xs: seq<string>, t: string, ys: seq<string>)
    requires Anchored(classify, Last(Segment(classify, xs)).lines)
    requires classify(t).Text?
    ensures Segment(classify, xs + [t] + ys) == Segment(classify, xs) + Segment(classify, [t] + ys)
  {
    var st := Run(classify, Start, xs);
    LastGroupIsPending(classify, xs);
    var next := Step(classify, st, t);
    var first := Step(classify, Start, t);
    RunSnoc(classify, xs, t);
    RunAppend(classify, Start, xs + [t], ys);
    RunAppend(classify, Start, [t], ys);
    RunOne(classify, Start, t);
    assert next == Shift(first, Segment(classify, xs));
    RunShift(classify, next, ys);
    RunShift(classify, first, ys);
    assert first.emitted == [];
    assert next.(emitted := []) == first.(emitted := []);
  }

  /** A continuation message after an anchored group joins that group. */
  lemma ContinuationJoinsGroup(classify: Classifier, xs: seq<string>, c: string)
    requires Anchored(classify, Last(Segment(classify, xs)).lines)
    requires IsContinuation(classify, c)
    ensures var gs := Segment(classify, xs);
            Segment(classify, xs + [c]) == AllButLast(gs) + [Group(Last(gs).locations + LocationOf(classify, c), Last(gs).lines + [c])]
  {
    LastGroupIsPending(classify, xs);
    RunSnoc(classify, xs, c);
  }

  /** A message line after free text joins it and anchors the group: leading
      free text belongs to the message that follows it. */
  lemma MessageAnchorsText(classify: Classifier, xs: seq<string>, m: string)
    requires AllText(classify, Last(Segment(classify, xs)).lines)
    requires classify(m).Message?
    ensures var gs := Segment(classify, xs);
            && Segment(classify, xs + [m]) == AllButLast(gs) + [Group(LocationOf(classify, m), Last(gs).lines + [m])]
            && Anchored(classify, Last(Segment(classify, xs + [m])).lines)
  {
    var st := Run(classify, Start, xs);
    LastGroupIsPending(classify, xs);
    RunKeepsInv(classify, Start, xs);
    assert !st.inMessage;
    LocationsOfText(classify, st.buffer);
    assert st.locations == [];
    var next := Step(classify, st, m);
    assert next.locations == LocationOf(classify, m);
    assert next.buffer == st.buffer + [m];
    assert next.emitted == st.emitted;
    RunSnoc(classify, xs, m);
    AnchorText(classify, st.buffer, m);
  }

  /** Free text after free text joins it. */
  lemma TextJoinsText(classify: Classifier, xs: seq<string>, t: string)
    requires AllText(classify, Last(Segment(classify, xs)).lines)
    requires classify(t).Text?
    ensures var gs := Segment(classify, xs);
            Segment(classify, xs + [t]) == AllButLast(gs) + [Group([], Last(gs).lines + [t])]
  {
    LastGroupIsPending(classify, xs);
    RunKeepsInv(classify, Start, xs);
    LocationsOfText(classify, Last(Segment(classify, xs)).lines);
    RunSnoc(classify, xs, t);
  }
}
