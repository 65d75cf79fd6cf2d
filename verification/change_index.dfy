/** The change index: which lines of which files a diff touches.

    The diff is read once, front to back. A file header selects the current
    file; a recognised hunk adds the inclusive range `start..end` of its new
    side to the current file's set of changed lines. Hunks that arrive before
    any header are filed under the key `None`, which no lint location (always
    a real file name) can look up. */
module ChangeIndex {
  import opened Wrappers
  import opened DiffLines

  /** Changed line numbers per file. Every file with a recognised hunk has a
      key, even when the hunk's range is empty. */
  type Index = map<Option<string>, set<nat>>

  /** The inclusive range `start..end`; empty when `end < start`. */
  function Interval(start: nat, end: nat): (s: set<nat>)
    ensures forall i :: i in s <==> start <= i <= end
  {
    if end < start then {}
    else if end == start then {start}
    else Interval(start, end - 1) + {end}
  }

  function Lookup(index: Index, key: Option<string>): set<nat> {
    if key in index then index[key] else {}
  }

  /** The builder's state: the current file and the index so far. */
  datatype Builder = Builder(current: Option<string>, index: Index)

  function Absorb(b: Builder, d: DiffLine): Builder {
    match d
    case Header(f) => b.(current := Some(f))
    case Hunk(s, e) => b.(index := b.index[b.current := Lookup(b.index, b.current) + Interval(s, e)])
    case Ignored => b
  }

  /** The builder's state after reading the classified lines `ds`. */
  function Scan(ds: seq<DiffLine>): Builder {
    if |ds| == 0 then Builder(None, map[])
    else Absorb(Scan(ds[..|ds| - 1]), ds[|ds| - 1])
  }

  /** What each line of the diff output means to the builder. */
  function Classified(diff: seq<string>): seq<DiffLine> {
    seq(|diff|, i requires 0 <= i < |diff| => ClassifyDiff(diff[i]))
  }

  /** The index built from the diff output `diff`. */
  function ChangedLines(diff: seq<string>): Index {
    Scan(Classified(diff)).index
  }

  /** The file in effect after `ds`: the name in its last header. */
  function LastHeader(ds: seq<DiffLine>): Option<string> {
    if |ds| == 0 then None
    else if ds[|ds| - 1].Header? then Some(ds[|ds| - 1].file)
    else LastHeader(ds[..|ds| - 1])
  }

  /** Line `i` is a hunk read while `key` was the current file. */
  ghost predicate HunkUnder(ds: seq<DiffLine>, i: int, key: Option<string>)
    requires 0 <= i < |ds|
  {
    ds[i].Hunk? && LastHeader(ds[..i]) == key
  }

  /** ... and that hunk's range holds `n`. */
  ghost predicate HunkCovers(ds: seq<DiffLine>, i: int, key: Option<string>, n: nat)
    requires 0 <= i < |ds|
  {
    HunkUnder(ds, i, key) && ds[i].start <= n <= ds[i].end
  }

  lemma {:induction false} ScanCurrent(ds: seq<DiffLine>)
    ensures Scan(ds).current == LastHeader(ds)
  {
    if |ds| > 0 {
      ScanCurrent(ds[..|ds| - 1]);
    }
  }

  /** Lines before the last are judged the same in `ds` and in its prefix. */
  lemma PrefixAgrees(ds: seq<DiffLine>, i: int)
    requires 0 <= i < |ds| - 1
    ensures ds[..i] == ds[..|ds| - 1][..i] && ds[i] == ds[..|ds| - 1][i]
  {
  }

  /** A file has a key exactly when some hunk was read while it was current. */
  lemma {:induction false} ScanKey(ds: seq<DiffLine>, key: Option<string>)
    ensures key in Scan(ds).index <==> exists i :: 0 <= i < |ds| && HunkUnder(ds, i, key)
  {
    if |ds| > 0 {
      var last := |ds| - 1;
      var prefix := ds[..last];
      ScanKey(prefix, key);
      ScanCurrent(prefix);
      assert ds[..last] == prefix;
      var before := Scan(prefix).index;
      if key in Scan(ds).index && key !in before {
        assert HunkUnder(ds, last, key);
      }
      if key in before {
        var i :| 0 <= i < |prefix| && HunkUnder(prefix, i, key);
        PrefixAgrees(ds, i);
        assert HunkUnder(ds, i, key);
      }
      if exists i :: 0 <= i < |ds| && HunkUnder(ds, i, key) {
        var i :| 0 <= i < |ds| && HunkUnder(ds, i, key);
        if i < last {
          PrefixAgrees(ds, i);
          assert HunkUnder(prefix, i, key);
        }
      }
    }
  }

  /** A line is in a file's set exactly when some hunk read while that file
      was current covers it. */
  lemma {:induction false} ScanLine(ds: seq<DiffLine>, key: Option<string>, n: nat)
    requires key in Scan(ds).index
    ensures n in Scan(ds).index[key] <==> exists i :: 0 <= i < |ds| && HunkCovers(ds, i, key, n)
  {
    var last := |ds| - 1;
    var prefix := ds[..last];
    ScanCurrent(prefix);
    assert ds[..last] == prefix;
    var before := Scan(prefix).index;
    if key in before {
      ScanLine(prefix, key, n);
    }
    if n in Scan(ds).index[key] {
      if key in before && n in before[key] {
        var i :| 0 <= i < |prefix| && HunkCovers(prefix, i, key, n);
        PrefixAgrees(ds, i);
        assert HunkCovers(ds, i, key, n);
      } else {
        assert HunkCovers(ds, last, key, n);
      }
    }
    if exists i :: 0 <= i < |ds| && HunkCovers(ds, i, key, n) {
      var i :| 0 <= i < |ds| && HunkCovers(ds, i, key, n);
      if i < last {
        PrefixAgrees(ds, i);
        assert HunkCovers(prefix, i, key, n);
        ScanKey(prefix, key);
      }
    }
  }

  /** The index is the union, per file, of the ranges of all recognised hunks
      read while that file was current: a key exists exactly for the files
      (or `None`) some hunk was read under, and a line number is in a file's
      set exactly when one of those hunks covers it. */
  lemma IndexIsUnionOfHunks(diff: seq<string>)
    ensures forall key :: key in ChangedLines(diff) <==>
              exists i :: 0 <= i < |diff| && HunkUnder(Classified(diff), i, key)
    ensures forall key, n: nat :: key in ChangedLines(diff) ==>
              (n in ChangedLines(diff)[key] <==> exists i :: 0 <= i < |diff| && HunkCovers(Classified(diff), i, key, n))
  {
    var ds := Classified(diff);
    var index := Scan(ds).index;
    assert ChangedLines(diff) == index;
    forall key
      ensures key in index <==> exists i :: 0 <= i < |ds| && HunkUnder(ds, i, key)
    {
      ScanKey(ds, key);
    }
    forall key, n: nat | key in index
      ensures n in index[key] <==> exists i :: 0 <= i < |ds| && HunkCovers(ds, i, key, n)
    {
      ScanLine(ds, key, n);
    }
  }

  /** Reading more of the diff never removes a file or a line. */
  lemma {:induction false} ScanGrows(ds: seq<DiffLine>, more: seq<DiffLine>)
    ensures forall key :: key in Scan(ds).index ==>
              key in Scan(ds + more).index && Scan(ds).index[key] <= Scan(ds + more).index[key]
  {
    if |more| > 0 {
      ScanGrows(ds, more[..|more| - 1]);
      assert (ds + more)[..|ds + more| - 1] == ds + more[..|more| - 1];
    } else {
      assert ds + more == ds;
    }
  }

  /** Reading one more classified line is one more `Absorb`. */
  lemma ScanSnoc(ds: seq<DiffLine>, d: DiffLine)
    ensures Scan(ds + [d]) == Absorb(Scan(ds), d)
  {
    assert (ds + [d])[..|ds|] == ds;
  }

  lemma ClassifiedSnoc(diff: seq<string>, line: string)
    ensures Classified(diff + [line]) == Classified(diff) + [ClassifyDiff(line)]
  {
  }

  /** A header line or an unrecognised line (a `d` hunk among them) adds no
      file and no line to the index. */
  lemma NonHunkKeepsIndex(diff: seq<string>, line: string)
    requires !ClassifyDiff(line).Hunk?
    ensures ChangedLines(diff + [line]) == ChangedLines(diff)
  {
    ClassifiedSnoc(diff, line);
    ScanSnoc(Classified(diff), ClassifyDiff(line));
  }

  /** A recognised hunk adds exactly its range to the set of the file named
      by the last header before it (`None` when there is none), keeps every
      other file's set, and removes nothing. */
  lemma HunkAddsRange(diff: seq<string>, line: string)
    requires ClassifyDiff(line).Hunk?
    ensures var hunk, key := ClassifyDiff(line), LastHeader(Classified(diff));
            ChangedLines(diff + [line]) ==
              ChangedLines(diff)[key := Lookup(ChangedLines(diff), key) + Interval(hunk.start, hunk.end)]
  {
    ClassifiedSnoc(diff, line);
    ScanSnoc(Classified(diff), ClassifyDiff(line));
    ScanCurrent(Classified(diff));
  }

  /** The inner loop of `process_diff_list`: make sure the file has a key,
      then add each line of the range. */
  method AddHunk(index: Index, current: Option<string>, start: nat, end: nat) returns (result: Index)
    ensures result == index[current := Lookup(index, current) + Interval(start, end)]
  {
    result := index;
    if current !in result {
      result := result[current := {}];
    }
    var base := result;
    ghost var added: set<nat> := {};
    assert base[current] + added == base[current];
    assert base[current := base[current]] == base;
    var i := start;
    while i <= end
      invariant start <= i
      invariant i <= end + 1 || i == start
      invariant forall j :: j in added <==> start <= j < i
      invariant current in result && result == base[current := base[current] + added]
      decreases end + 1 - i
    {
      ghost var before := result;
      result := result[current := result[current] + {i}];
      assert before[current] + {i} == base[current] + (added + {i});
      assert result == base[current := base[current] + (added + {i})];
      added := added + {i};
      i := i + 1;
    }
    assert added == Interval(start, end);
  }

  /** The loop of `process_diff_list`: one pass over the diff, filling the
      index in place. */
  method ProcessDiffList(diff: seq<string>) returns (index: Index)
    ensures index == ChangedLines(diff)
  {
    var current: Option<string> := None;
    index := map[];
    var n := 0;
    while n < |diff|
      invariant 0 <= n <= |diff|
      invariant Scan(Classified(diff)[..n]) == Builder(current, index)
    {
      assert Classified(diff)[..n + 1][..n] == Classified(diff)[..n];
      match ClassifyDiff(diff[n]) {
        case Header(f) =>
          current := Some(f);
        case Hunk(start, end) =>
          index := AddHunk(index, current, start, end);
        case Ignored =>
      }
      n := n + 1;
    }
    assert Classified(diff)[..n] == Classified(diff);
  }
}
