/** Deciding which message groups reach the output.

    A group with no locations (banners, free text) is always printed. A group
    with locations is printed once when at least one of them names a file
    that has a set in the change index and a line in that set; otherwise it is
    dropped. Printed groups keep their input order. */
module Filter {
  import opened Wrappers
  import opened DiffLines
  import opened LintLines
  import opened ChangeIndex
  import opened Segmenter

  /** A location names a changed line. Locations always name a real file, so
      the lookup key is `Some(file)` and the `None` set is never consulted. */
  predicate Hits(index: Index, loc: Location) {
    Some(loc.file) in index && loc.line in index[Some(loc.file)]
  }

  predicate Forwarded(index: Index, g: Group) {
    |g.locations| == 0 || exists i :: 0 <= i < |g.locations| && Hits(index, g.locations[i])
  }

  /** The groups that are printed, in input order. */
  function Selected(index: Index, gs: seq<Group>): seq<Group> {
    if |gs| == 0 then []
    else Selected(index, gs[..|gs| - 1]) + (if Forwarded(index, gs[|gs| - 1]) then [gs[|gs| - 1]] else [])
  }

  /** The text of each printed group. */
  function Texts(gs: seq<Group>): (ts: seq<seq<string>>)
    ensures |ts| == |gs| && forall i :: 0 <= i < |gs| ==> ts[i] == gs[i].lines
  {
    seq(|gs|, i requires 0 <= i < |gs| => gs[i].lines)
  }

  /** What is printed for the groups `gs`. */
  function Output(index: Index, gs: seq<Group>): seq<seq<string>> {
    Texts(Selected(index, gs))
  }

  /** The filtering loop of `process_lint_output`: for each group, print it when it
      has no locations, or on the first location that hits, and then stop
      looking. */
  method ProcessLintOutput(index: Index, gs: seq<Group>) returns (out: seq<seq<string>>)
    ensures out == Output(index, gs)
  {
    out := [];
    var k := 0;
    while k < |gs|
      invariant 0 <= k <= |gs|
      invariant out == Output(index, gs[..k])
    {
      var g := gs[k];
      assert gs[..k + 1][..k] == gs[..k];
      if |g.locations| == 0 {
        out := out + [g.lines];
      } else {
        var j := 0;
        while j < |g.locations|
          invariant 0 <= j <= |g.locations|
          invariant forall i :: 0 <= i < j ==> !Hits(index, g.locations[i])
          invariant out == Output(index, gs[..k])
        {
          if Hits(index, g.locations[j]) {
            out := out + [g.lines];
            break;
          }
          j := j + 1;
        }
      }
      k := k + 1;
    }
    assert gs[..k] == gs;
  }

  // ---------------------------------------------------------------------------
  // Properties of the filter
  // ---------------------------------------------------------------------------

  /** Filtering goes group by group: the output for two runs of groups is the
      output for the first followed by the output for the second. */
  lemma {:induction false} SelectedAppend(index: Index, a: seq<Group>, b: seq<Group>)
    ensures Selected(index, a + b) == Selected(index, a) + Selected(index, b)
  {
    if |b| == 0 {
      assert a + b == a;
    } else {
      var b' := b[..|b| - 1];
      SelectedAppend(index, a, b');
      assert (a + b)[..|a + b| - 1] == a + b';
      assert (a + b)[|a + b| - 1] == b[|b| - 1];
    }
  }

  /** Exactly the forwarded groups of the input reach the output, each as it
      was, and the output is no longer than the input. The order is kept
      group by group, as `SelectedAppend` and `SelectedOne` state. */
  lemma {:induction false} SelectedAreForwarded(index: Index, gs: seq<Group>)
    ensures |Selected(index, gs)| <= |gs|
    ensures forall g :: g in Selected(index, gs) ==> g in gs && Forwarded(index, g)
    ensures forall g :: g in gs && Forwarded(index, g) ==> g in Selected(index, gs)
  {
    if |gs| > 0 {
      var init := gs[..|gs| - 1];
      SelectedAreForwarded(index, init);
      assert gs == init + [gs[|gs| - 1]];
    }
  }

  /** A group without locations is always printed, whatever the index. */
  lemma UnanchoredAlwaysForwarded(index: Index, g: Group)
    requires |g.locations| == 0
    ensures Output(index, [g]) == [g.lines]
  {
    SelectedOne(index, g);
  }

  /** A group with locations is printed exactly once when some location hits,
      and not at all otherwise. */
  lemma AnchoredForwardedOnHit(index: Index, g: Group)
    requires |g.locations| > 0
    ensures (exists i :: 0 <= i < |g.locations| && Hits(index, g.locations[i])) ==> Output(index, [g]) == [g.lines]
    ensures (forall i :: 0 <= i < |g.locations| ==> !Hits(index, g.locations[i])) ==> Output(index, [g]) == []
  {
    SelectedOne(index, g);
  }

  lemma SelectedOne(index: Index, g: Group)
    ensures Selected(index, [g]) == if Forwarded(index, g) then [g] else []
    ensures Output(index, [g]) == if Forwarded(index, g) then [g.lines] else []
  {
    assert [g][..0] == [];
    var ts := Output(index, [g]);
    if Forwarded(index, g) {
      assert |ts| == 1 && ts[0] == g.lines;
    }
  }

  /** A bigger index forwards everything a smaller one does: filtering with
      the bigger index first and then the smaller gives what the smaller
      alone gives. */
  lemma {:induction false} MoreChangesForwardMore(small: Index, big: Index, gs: seq<Group>)
    requires forall key :: key in small ==> key in big && small[key] <= big[key]
    ensures Selected(small, Selected(big, gs)) == Selected(small, gs)
  {
    if |gs| > 0 {
      var init := gs[..|gs| - 1];
      var g := gs[|gs| - 1];
      MoreChangesForwardMore(small, big, init);
      if Forwarded(small, g) && |g.locations| > 0 {
        var i :| 0 <= i < |g.locations| && Hits(small, g.locations[i]);
        assert Hits(big, g.locations[i]);
      }
      var keptBig := if Forwarded(big, g) then [g] else [];
      SelectedAppend(small, Selected(big, init), keptBig);
      assert keptBig == [] ==> Selected(big, init) + keptBig == Selected(big, init);
      assert keptBig == [g] ==> Selected(small, keptBig) == Selected(small, [g][..0]) + (if Forwarded(small, g) then [g] else []);
    }
  }

  /** Hunks read before any header (the `None` key) never cause a group to be
      printed. */
  lemma {:induction false} NoneKeyInert(index: Index, gs: seq<Group>)
    ensures Selected(index, gs) == Selected(index - {None}, gs)
  {
    if |gs| > 0 {
      NoneKeyInert(index, gs[..|gs| - 1]);
      var g := gs[|gs| - 1];
      assert forall i :: 0 <= i < |g.locations| ==> (Hits(index, g.locations[i]) <==> Hits(index - {None}, g.locations[i]));
    }
  }

  /** The groups without locations, in order. */
  function Unanchored(gs: seq<Group>): seq<Group> {
    if |gs| == 0 then []
    else Unanchored(gs[..|gs| - 1]) + (if |gs[|gs| - 1].locations| == 0 then [gs[|gs| - 1]] else [])
  }

  /** When no location of any group hits, exactly the groups without
      locations are printed. */
  lemma {:induction false} NoHitsKeepsOnlyUnanchored(index: Index, gs: seq<Group>)
    requires forall i, k :: 0 <= i < |gs| && 0 <= k < |gs[i].locations| ==> !Hits(index, gs[i].locations[k])
    ensures Selected(index, gs) == Unanchored(gs)
  {
    if |gs| > 0 {
      NoHitsKeepsOnlyUnanchored(index, gs[..|gs| - 1]);
      var g := gs[|gs| - 1];
      assert forall k :: 0 <= k < |g.locations| ==> !Hits(index, g.locations[k]);
    }
  }

  /** When no file has a changed line (the empty index, or only hunks read
      before any header), exactly the groups without locations are printed. */
  lemma NoChangedFileKeepsOnlyUnanchored(index: Index, gs: seq<Group>)
    requires forall key :: key in index ==> key == None
    ensures Selected(index, gs) == Unanchored(gs)
  {
    NoHitsKeepsOnlyUnanchored(index, gs);
  }

  /** When every group is printed, nothing is dropped. */
  lemma {:induction false} AllForwardedKeepsAll(index: Index, gs: seq<Group>)
    requires forall i :: 0 <= i < |gs| ==> Forwarded(index, gs[i])
    ensures Selected(index, gs) == gs
  {
    if |gs| > 0 {
      AllForwardedKeepsAll(index, gs[..|gs| - 1]);
    }
  }

  /** The lines written out, group after group. */
  function Flatten(ts: seq<seq<string>>): seq<string> {
    if |ts| == 0 then [] else Flatten(ts[..|ts| - 1]) + ts[|ts| - 1]
  }

  lemma {:induction false} FlattenTexts(gs: seq<Group>)
    ensures Flatten(Texts(gs)) == Lines(gs)
  {
    if |gs| > 0 {
      FlattenTexts(gs[..|gs| - 1]);
      assert Texts(gs)[..|gs| - 1] == Texts(gs[..|gs| - 1]);
    }
  }
}
