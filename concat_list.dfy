/**
 * `create_path_file`: the concat list handed to the encoder. The paths are
 * strided, each backslash becomes a slash, and each selected path becomes one
 * line `file <path>`. Writing the text to `path_file.txt` is not modelled; the
 * text itself is the method's second result.
 */
module ConcatList {
  import opened Common
  import opened Strides

  /** `path.replace('\\', '/')`. */
  function Normalise(p: string): (r: string)
    ensures |r| == |p|
    ensures forall i :: 0 <= i < |p| ==> r[i] == (if p[i] == '\\' then '/' else p[i])
  {
    if p == [] then []
    else [if p[0] == '\\' then '/' else p[0]] + Normalise(p[1..])
  }

  /** A normalised path holds no backslash, and normalising it again changes nothing. */
  lemma NormaliseFacts(p: string)
    ensures '\\' !in Normalise(p)
    ensures Normalise(Normalise(p)) == Normalise(p)
  {
    var r := Normalise(p);
    assert forall i :: 0 <= i < |r| ==> r[i] != '\\';
  }

  /** The line written for one selected path. */
  function Line(p: string): string
  {
    "file " + Normalise(p) + "\n"
  }

  /** The lines for `paths`, one after the other. */
  function Lines(paths: seq<string>): string
  {
    if paths == [] then "" else Line(paths[0]) + Lines(paths[1..])
  }

  /** The text of `path_file.txt`: one line per path of `paths[0::step]`. */
  function ConcatList(paths: seq<string>, step: int): string
    requires step != 0
  {
    Lines(Strided(paths, step))
  }

  lemma {:induction false} LinesAppend(a: seq<string>, b: seq<string>)
    ensures Lines(a + b) == Lines(a) + Lines(b)
    decreases |a|
  {
    if a == [] {
      assert a + b == b;
    } else {
      assert (a + b)[1..] == a[1..] + b;
      LinesAppend(a[1..], b);
    }
  }

  /**
   * `create_path_file(paths, step)`: returns the file name and the text written
   * to it. A zero step is refused by Python's slicing; a negative one selects
   * only the first path.
   */
  method CreatePathFile(paths: seq<string>, step: int) returns (pathFile: string, content: string)
    requires step != 0
    ensures pathFile == "path_file.txt"
    ensures content == ConcatList(paths, step)
  {
    pathFile := "path_file.txt";
    var selected := Strided(paths, step);
    content := "";
    var i := 0;
    while i < |selected|
      invariant 0 <= i <= |selected|
      invariant content == Lines(selected[..i])
    {
      var path := Normalise(selected[i]);
      var line := "file " + path + "\n";
      content := content + line;
      assert Lines([selected[i]]) == line + Lines([]);
      LinesAppend(selected[..i], [selected[i]]);
      assert selected[..i + 1] == selected[..i] + [selected[i]];
      i := i + 1;
    }
    assert selected[..i] == selected;
  }

  /** Python `s.split('\n')`: the pieces between newlines, one more than there are newlines. */
  function SplitLines(s: string): (r: seq<string>)
    ensures |r| >= 1
    ensures forall i :: 0 <= i < |r| ==> '\n' !in r[i]
  {
    if s == [] then [""]
    else if s[0] == '\n' then [""] + SplitLines(s[1..])
    else
      var rest := SplitLines(s[1..]);
      [[s[0]] + rest[0]] + rest[1..]
  }

  /** The paths a concat list names: every line but the empty piece after the last newline, less its `file ` prefix. */
  function ParseConcatList(content: string): Option<seq<string>>
  {
    var pieces := SplitLines(content);
    if pieces[|pieces| - 1] != "" then None else StripPrefixes(pieces[..|pieces| - 1])
  }

  function StripPrefixes(lines: seq<string>): Option<seq<string>>
  {
    if lines == [] then Some([])
    else if |lines[0]| < 5 || lines[0][..5] != "file " then None
    else
      match StripPrefixes(lines[1..])
      case None => None
      case Some(rest) => Some([lines[0][5..]] + rest)
  }

  lemma {:induction false} SplitLinesAfterLine(a: string, b: string)
    requires '\n' !in a
    ensures SplitLines(a + "\n" + b) == [a] + SplitLines(b)
    decreases |a|
  {
    if a == [] {
      assert a + "\n" + b == "\n" + b;
      assert ("\n" + b)[1..] == b;
    } else {
      var s := a + "\n" + b;
      assert s[0] == a[0] && s[1..] == a[1..] + "\n" + b;
      SplitLinesAfterLine(a[1..], b);
      assert [a[0]] + a[1..] == a;
    }
  }

  /** `[path.replace('\\', '/') for path in paths]`. */
  function NormaliseAll(paths: seq<string>): (r: seq<string>)
    ensures |r| == |paths|
    ensures forall i :: 0 <= i < |paths| ==> r[i] == Normalise(paths[i])
  {
    if paths == [] then [] else [Normalise(paths[0])] + NormaliseAll(paths[1..])
  }

  /** The lines for `paths` without their newlines. */
  function FileLines(paths: seq<string>): (r: seq<string>)
    ensures |r| == |paths|
  {
    if paths == [] then [] else ["file " + Normalise(paths[0])] + FileLines(paths[1..])
  }

  /** The pieces of the lines for `paths`: one `file <path>` per path, then the empty piece. */
  lemma {:induction false} SplitLinesOfLines(paths: seq<string>)
    requires forall i :: 0 <= i < |paths| ==> '\n' !in paths[i]
    ensures SplitLines(Lines(paths)) == FileLines(paths) + [""]
    decreases |paths|
  {
    if paths != [] {
      var n := Normalise(paths[0]);
      var a := "file " + n;
      assert '\n' !in n by {
        assert forall j :: 0 <= j < |n| ==> n[j] != '\n';
      }
      assert '\n' !in a by {
        assert forall j :: 5 <= j < |a| ==> a[j] == n[j - 5];
      }
      assert Line(paths[0]) + Lines(paths[1..]) == a + "\n" + Lines(paths[1..]);
      SplitLinesAfterLine(a, Lines(paths[1..]));
      SplitLinesOfLines(paths[1..]);
    }
  }

  lemma {:induction false} StripPrefixesOfLines(paths: seq<string>)
    ensures StripPrefixes(FileLines(paths)) == Some(NormaliseAll(paths))
    decreases |paths|
  {
    if paths != [] {
      var lines := FileLines(paths);
      StripPrefixesOfLines(paths[1..]);
      assert lines[0][..5] == "file " && lines[0][5..] == Normalise(paths[0]);
      assert lines[1..] == FileLines(paths[1..]);
    }
  }

  /**
   * Reading the concat list back gives exactly the selected paths, normalised
   * and in order, whenever no path holds a newline.
   */
  lemma ConcatListRoundTrip(paths: seq<string>, step: int)
    requires step != 0
    requires forall i :: 0 <= i < |paths| ==> '\n' !in paths[i]
    ensures |SplitLines(ConcatList(paths, step))| == |Strided(paths, step)| + 1
    ensures ParseConcatList(ConcatList(paths, step)) == Some(NormaliseAll(Strided(paths, step)))
  {
    var sel := Strided(paths, step);
    SelectedFromPaths(paths, step);
    assert forall i :: 0 <= i < |sel| ==> '\n' !in sel[i] by {
      forall i | 0 <= i < |sel| ensures '\n' !in sel[i] {
        assert sel[i] in sel;
        var k :| 0 <= k < |paths| && paths[k] == sel[i];
      }
    }
    SplitLinesOfLines(sel);
    var lines := FileLines(sel);
    assert (lines + [""])[..|lines|] == lines;
    StripPrefixesOfLines(sel);
  }

  /** Every selected path is one of the input paths. */
  lemma {:induction false} SelectedFromPaths(paths: seq<string>, step: int)
    requires step != 0
    ensures forall p :: p in Strided(paths, step) ==> p in paths
    decreases |paths|
  {
    if paths != [] && step > 0 {
      var rest := paths[Min(step, |paths|)..];
      SelectedFromPaths(rest, step);
      assert forall p :: p in rest ==> p in paths;
    }
  }

  /**
   * The selection is every `step`-th path from the first: `ceil(n / step)` of
   * them for a positive step, all of them in order for the default step 1, and
   * only the first for a negative step.
   */
  lemma SelectedStride(paths: seq<string>, step: int)
    requires step != 0
    ensures step > 0 ==> |Strided(paths, step)| == CeilDiv(|paths|, step)
    ensures step > 0 ==> forall j :: 0 <= j < |Strided(paths, step)| ==>
      j * step < |paths| && Strided(paths, step)[j] == paths[j * step]
    ensures step == 1 ==> Strided(paths, step) == paths
    ensures step < 0 ==> Strided(paths, step) == paths[..Min(1, |paths|)]
  {
    if step > 0 {
      PositiveStride(paths, step);
    }
  }

  lemma PositiveStride(paths: seq<string>, step: int)
    requires step > 0
    ensures |Strided(paths, step)| == CeilDiv(|paths|, step)
    ensures forall j :: 0 <= j < |Strided(paths, step)| ==>
      j * step < |paths| && Strided(paths, step)[j] == paths[j * step]
    ensures step == 1 ==> Strided(paths, step) == paths
  {
    StridedLength(paths, step);
    forall j | 0 <= j < |Strided(paths, step)|
      ensures j * step < |paths| && Strided(paths, step)[j] == paths[j * step]
    {
      StridedAt(paths, step, j);
    }
    if step == 1 {
      StridedByOne(paths);
    }
  }

  /** Three paths with step 2: the list names the first and the third, in that order. */
  lemma ThreePathsStepTwo(a: string, b: string, c: string)
    ensures ConcatList([a, b, c], 2) == "file " + Normalise(a) + "\n" + "file " + Normalise(c) + "\n"
  {
    var s := [a, b, c];
    assert s[Min(2, |s|)..] == [c];
    assert [c][Min(2, 1)..] == [];
    assert Strided([c], 2) == [c] + Strided([], 2);
    assert Strided(s, 2) == [a] + Strided([c], 2);
    assert Strided(s, 2) == [a, c];
    assert [a, c][1..] == [c];
    assert Lines([c]) == Line(c) + Lines([]);
    assert Lines([a, c]) == Line(a) + Lines([c]);
  }
}
