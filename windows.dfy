/**
 * Sliding-window partitioning (`process_Images`) and the result of averaging
 * each window (`average_Images`). Decoding, averaging and saving pixels are
 * an oracle that says how `average_Images` ends for a window.
 */
module Windows {
  import opened Common
  import opened PosixPath
  import opened Decimal
  import opened Strides

  /** The dictionary `process_Images` hands to `average_Images`: the window's paths and its output path. */
  datatype Batch = Batch(paths: seq<string>, newPath: string)

  /** How `average_Images` ends for one window. */
  datatype AverageOutcome =
    | Saved       // the mean image was computed and saved at `newPath`
    | SaveFailed  // averaging or saving raised inside the `try`: logged, no path returned
    | LoadFailed  // reading an image raised before the `try`: the exception leaves `average_Images`

  /** The folder `process_Images` writes to: `dst`, or `'.tmp_img/'` when `dst` is `None`. */
  function OutputDir(dst: Option<string>): string
  {
    match dst
    case Some(d) => d
    case None => ".tmp_img/"
  }

  /** The file name of window `k`. */
  function WindowFileName(k: nat): string
  {
    "Im_" + NatToString(k) + ".JPG"
  }

  /** The output path of window `k`: `Im_<k>.JPG` in the folder `dst`. */
  function OutputName(dst: string, k: nat): string
  {
    Join(dst, WindowFileName(k))
  }

  /** Python `s[lo:hi]` for `0 <= lo <= hi`: the bounds are clamped to the sequence. */
  function Slice(s: seq<string>, lo: nat, hi: nat): seq<string>
    requires lo <= hi
  {
    if lo >= |s| then [] else s[lo..Min(hi, |s|)]
  }

  /** The number of iterations of `for i in range(0, n, step)`: none for a negative step. */
  function WindowCount(n: nat, step: int): nat
  {
    if step > 0 then CeilDiv(n, step) else 0
  }

  /** Window `k`: the paths from index `k * step`, at most `window` of them, and output `Im_<k>.JPG`. */
  function WindowAt(paths: seq<string>, window: nat, step: nat, dst: string, k: nat): Batch
  {
    Batch(Slice(paths, k * step, k * step + window), OutputName(dst, k))
  }

  /** The `batches` list `process_Images` builds before it hands it to the pool. */
  function Windows(paths: seq<string>, window: nat, step: int, dst: string): seq<Batch>
  {
    seq(WindowCount(|paths|, step), k requires 0 <= k < WindowCount(|paths|, step) =>
      WindowAt(paths, window, step as nat, dst, k))
  }

  /** What `average_Images(batch)` returns when it does return: `[new_path]` if the image was saved, `[]` otherwise. */
  function SavedPaths(b: Batch, outcome: AverageOutcome): seq<string>
    requires outcome != LoadFailed
  {
    if outcome == Saved then [b.newPath] else []
  }

  /**
   * `list(pool.map(average_Images, batches))`: the results in batch order
   * (`pool.map` keeps its input order), or the exception of the first batch,
   * in that order, whose loading raised.
   */
  function AverageAll(batches: seq<Batch>, average: Batch -> AverageOutcome): Result<seq<seq<string>>, Batch>
  {
    if batches == [] then Ok([])
    else if average(batches[0]) == LoadFailed then Err(batches[0])
    else
      match AverageAll(batches[1..], average)
      case Err(b) => Err(b)
      case Ok(rest) => Ok([SavedPaths(batches[0], average(batches[0]))] + rest)
  }

  /**
   * `process_Images(image_paths, window, step, dst)`. The source indexes
   * `image_paths[0]`, divides by `window` and needs `int(100 / window)` workers,
   * and `range` refuses a zero step: those are its preconditions. A negative step
   * gives an empty range and so no windows. Creating the folder and the worker
   * pool are not modelled.
   */
  method ProcessImages(imagePaths: seq<string>, window: int, step: int, dst: Option<string>,
                       average: Batch -> AverageOutcome)
    returns (saves: Result<seq<seq<string>>, Batch>)
    requires |imagePaths| >= 1
    requires 1 <= window <= 100
    requires step != 0
    ensures saves == AverageAll(Windows(imagePaths, window, step, OutputDir(dst)), average)
  {
    var out := OutputDir(dst);
    var imageIdx: nat := 0;
    var batches: seq<Batch> := [];
    if step > 0 {
      var i: nat := 0;
      while i < |imagePaths|
        invariant i == imageIdx * step
        invariant (imageIdx - 1) * step < |imagePaths|
        invariant |batches| == imageIdx
        invariant forall k :: 0 <= k < imageIdx ==> batches[k] == WindowAt(imagePaths, window, step, out, k)
        decreases |imagePaths| - i
      {
        var tmp := Slice(imagePaths, i, i + window);
        batches := batches + [Batch(tmp, OutputName(out, imageIdx))];
        imageIdx := imageIdx + 1;
        i := i + step;
      }
      CeilDivUnique(|imagePaths|, step, imageIdx);
    }
    assert batches == Windows(imagePaths, window, step, out);
    saves := AverageAll(batches, average);
  }

  /**
   * For a positive step there are `ceil(n / step)` windows; window `k` starts at
   * `k * step < n` and holds the `min(window, n - k * step) >= 1` consecutive paths
   * from there. A negative step gives no windows.
   */
  lemma WindowsPlacement(paths: seq<string>, window: nat, step: int, dst: string)
    requires window >= 1
    ensures step < 0 ==> Windows(paths, window, step, dst) == []
    ensures step > 0 ==> |Windows(paths, window, step, dst)| == CeilDiv(|paths|, step)
    ensures step > 0 ==> forall k :: 0 <= k < |Windows(paths, window, step, dst)| ==>
      k * step < |paths| &&
      |Windows(paths, window, step, dst)[k].paths| == Min(window, |paths| - k * step) >= 1 &&
      forall m :: 0 <= m < |Windows(paths, window, step, dst)[k].paths| ==>
        Windows(paths, window, step, dst)[k].paths[m] == paths[k * step + m]
  {
    if step > 0 {
      forall k | 0 <= k < CeilDiv(|paths|, step) ensures k * step < |paths| {
        WindowLength(paths, window, step, dst, k);
      }
    }
  }

  /** With a step smaller than the window, window `k + 1` starts inside window `k`. */
  lemma WindowsOverlap(paths: seq<string>, window: nat, step: int, dst: string, k: nat)
    requires 0 < step < window
    requires k + 1 < |Windows(paths, window, step, dst)|
    ensures step < |Windows(paths, window, step, dst)[k].paths|
    ensures Windows(paths, window, step, dst)[k].paths[step] == Windows(paths, window, step, dst)[k + 1].paths[0]
  {
    WindowsPlacement(paths, window, step, dst);
    assert (k + 1) * step == k * step + step;
  }

  /** The path at index `i` lies in some window. */
  ghost predicate Covered(ws: seq<Batch>, step: nat, i: nat)
  {
    exists k :: 0 <= k < |ws| && k * step <= i < k * step + |ws[k].paths|
  }

  /** Window `k` of a positive step starts at `k * step < n` and holds `min(window, n - k * step)` paths. */
  lemma WindowLength(paths: seq<string>, window: nat, step: int, dst: string, k: nat)
    requires step > 0 && k < |Windows(paths, window, step, dst)|
    ensures k * step < |paths|
    ensures |Windows(paths, window, step, dst)[k].paths| == Min(window, |paths| - k * step)
  {
    MulMono(k, CeilDiv(|paths|, step) - 1, step);
  }

  /** `i / d` is the index of the block of `d` that holds `i`. */
  lemma DivBlock(i: nat, d: nat)
    requires d > 0
    ensures (i / d) * d <= i < (i / d) * d + d
  {
    assert i == (i / d) * d + i % d;
  }

  lemma CoveredWhenStepFits(paths: seq<string>, window: nat, step: int, dst: string, i: nat)
    requires window >= 1 && step > 0 && (step <= window || |paths| <= window) && i < |paths|
    ensures Covered(Windows(paths, window, step, dst), step, i)
  {
    var k := i / step;
    DivBlock(i, step);
    var q := CeilDiv(|paths|, step);
    if k >= q {
      MulMono(q, k, step);
    }
    if step > window && k >= 1 {
      MulMono(1, k, step);
    }
    WindowLength(paths, window, step, dst, k);
    var ws := Windows(paths, window, step, dst);
    assert 0 <= k < |ws| && k * step <= i < k * step + |ws[k].paths|;
  }

  lemma GapWhenStepTooLarge(paths: seq<string>, window: nat, step: int, dst: string)
    requires window >= 1 && step > window && |paths| > window
    ensures !Covered(Windows(paths, window, step, dst), step, window)
  {
    var ws := Windows(paths, window, step, dst);
    forall k | 0 <= k < |ws| ensures !(k * step <= window < k * step + |ws[k].paths|) {
      if k > 0 {
        MulMono(1, k, step);
      } else {
        WindowLength(paths, window, step, dst, 0);
      }
    }
  }

  /**
   * Every path lies in some window exactly when the step is not larger than the
   * window or the first window already holds everything: a step larger than the
   * window skips the paths between windows.
   */
  lemma WindowsCoverAllExactlyWhen(paths: seq<string>, window: nat, step: int, dst: string)
    requires window >= 1 && step > 0
    ensures (forall i :: 0 <= i < |paths| ==> Covered(Windows(paths, window, step, dst), step, i))
        <==> (step <= window || |paths| <= window)
  {
    if step <= window || |paths| <= window {
      forall i | 0 <= i < |paths| ensures Covered(Windows(paths, window, step, dst), step, i) {
        CoveredWhenStepFits(paths, window, step, dst, i);
      }
    } else {
      GapWhenStepTooLarge(paths, window, step, dst);
    }
  }

  lemma WindowFileNameInjective(j: nat, k: nat)
    requires WindowFileName(j) == WindowFileName(k)
    ensures j == k
  {
    var a, b := NatToString(j), NatToString(k);
    assert ("Im_" + a + ".JPG")[3..3 + |a|] == a;
    assert ("Im_" + b + ".JPG")[3..3 + |b|] == b;
    assert |a| == |b|;
    NatToStringInjective(j, k);
  }

  /** Window `k` is written to `Im_<k>.JPG` in `dst`, and no two windows share an output path. */
  lemma WindowNamesDistinct(paths: seq<string>, window: nat, step: int, dst: string, j: nat, k: nat)
    requires j < |Windows(paths, window, step, dst)| && k < |Windows(paths, window, step, dst)|
    ensures Windows(paths, window, step, dst)[k].newPath == JoinPrefix(dst) + "Im_" + NatToString(k) + ".JPG"
    ensures j != k ==> Windows(paths, window, step, dst)[j].newPath != Windows(paths, window, step, dst)[k].newPath
  {
    JoinRelative(dst, WindowFileName(j));
    JoinRelative(dst, WindowFileName(k));
    if j != k && OutputName(dst, j) == OutputName(dst, k) {
      var p := JoinPrefix(dst);
      assert (p + WindowFileName(j))[|p|..] == WindowFileName(j);
      assert (p + WindowFileName(k))[|p|..] == WindowFileName(k);
      WindowFileNameInjective(j, k);
    }
  }

  /**
   * The pooled averaging succeeds exactly when no window fails to load; then it
   * has one entry per window, in window order: `[newPath]` for a saved window and
   * `[]` for one whose averaging raised, whatever happened to the other windows.
   */
  lemma {:induction false} AverageAllOk(batches: seq<Batch>, average: Batch -> AverageOutcome)
    ensures AverageAll(batches, average).Ok? <==> forall k :: 0 <= k < |batches| ==> average(batches[k]) != LoadFailed
    ensures AverageAll(batches, average).Ok? ==>
      |AverageAll(batches, average).value| == |batches| &&
      forall k :: 0 <= k < |batches| ==>
        AverageAll(batches, average).value[k] == (if average(batches[k]) == Saved then [batches[k].newPath] else [])
    decreases |batches|
  {
    if batches != [] {
      AverageAllOk(batches[1..], average);
      if AverageAll(batches, average).Ok? {
        var r := AverageAll(batches, average).value;
        forall k | 0 < k < |batches|
          ensures r[k] == (if average(batches[k]) == Saved then [batches[k].newPath] else [])
        {
          assert batches[k] == batches[1..][k - 1];
        }
      }
      if forall k :: 0 <= k < |batches| ==> average(batches[k]) != LoadFailed {
        assert forall k :: 0 <= k < |batches| - 1 ==> batches[1..][k] == batches[k + 1];
      } else {
        var k :| 0 <= k < |batches| && average(batches[k]) == LoadFailed;
        if k > 0 {
          assert batches[1..][k - 1] == batches[k];
        }
      }
    }
  }

  /** When the pooled averaging raises, it raises for the first window, in window order, that failed to load. */
  lemma {:induction false} AverageAllErr(batches: seq<Batch>, average: Batch -> AverageOutcome)
    requires AverageAll(batches, average).Err?
    ensures exists k :: (0 <= k < |batches| && batches[k] == AverageAll(batches, average).error &&
      average(batches[k]) == LoadFailed &&
      forall j :: 0 <= j < k ==> average(batches[j]) != LoadFailed)
    decreases |batches|
  {
    if average(batches[0]) != LoadFailed {
      AverageAllErr(batches[1..], average);
      var k :| 0 <= k < |batches[1..]| && batches[1..][k] == AverageAll(batches[1..], average).error &&
        average(batches[1..][k]) == LoadFailed &&
        forall j :: 0 <= j < k ==> average(batches[1..][j]) != LoadFailed;
      assert batches[k + 1] == batches[1..][k];
      forall j | 0 <= j < k + 1 ensures average(batches[j]) != LoadFailed {
        if j > 0 { assert batches[j] == batches[1..][j - 1]; }
      }
    }
  }

  /**
   * The processing test: five paths, window 2, step 1 and output folder `hans`
   * give five windows, each a path and its successor except the last, which
   * holds the fifth path alone; the first is written to `hans/Im_0.JPG`.
   */
  lemma FivePathsWindowTwoStepOne(paths: seq<string>)
    requires |paths| == 5
    ensures |Windows(paths, 2, 1, "hans")| == 5
    ensures forall k :: 0 <= k < 4 ==> Windows(paths, 2, 1, "hans")[k].paths == [paths[k], paths[k + 1]]
    ensures Windows(paths, 2, 1, "hans")[4].paths == [paths[4]]
    ensures Windows(paths, 2, 1, "hans")[0].newPath == "hans/Im_0.JPG"
  {
    CeilDivUnique(5, 1, 5);
    assert NatToString(0) == "0";
    assert WindowFileName(0) == "Im_0.JPG";
    assert Join("hans", "Im_0.JPG") == "hans/Im_0.JPG";
  }
}
