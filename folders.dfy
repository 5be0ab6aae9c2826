/**
 * `process_folders`: walks the source tree, orders each yielded folder by
 * capture time and stores, per destination folder, either the ordered paths or
 * the per-window results of `process_Images`.
 */
module Folders {
  import opened Common
  import opened PosixPath
  import opened Walker
  import opened Ordering
  import opened Windows

  /** A value of the `processed` dictionary. */
  datatype FolderOutput =
    | SortedPaths(paths: seq<string>)          // averaging off: the folder's paths in capture-time order
    | AveragedPaths(saves: seq<seq<string>>)   // averaging on: what `process_Images` returned

  /** `os.path.basename(os.path.dirname(paths[0]))`: the name of the folder the paths are in. */
  function FolderName(paths: seq<string>): string
    requires |paths| > 0
  {
    BaseName(DirName(paths[0]))
  }

  /** `dest_path`: the key of the folder's entry and the output folder of its windows. */
  function DestPath(dst: string, paths: seq<string>): string
    requires |paths| > 0
  {
    Join(dst, FolderName(paths))
  }

  /** What `process_Images` needs once averaging is on. */
  predicate WindowParamsOk(window: int, step: int)
  {
    1 <= window <= 100 && step != 0
  }

  /**
   * The body of the `for paths in folders` loop for one folder: the value it
   * stores under `DestPath(dst, paths)`, or the exception `process_Images` raised.
   */
  function ProcessFolder(paths: seq<string>, dst: string, window: int, step: int, average: bool,
                         captureTime: string -> Option<real>, avg: Batch -> AverageOutcome)
    : Result<FolderOutput, Batch>
    requires |paths| > 0
    requires average ==> WindowParamsOk(window, step)
  {
    var imagePaths := SortedImagePaths(captureTime, paths);
    if average then
      match AverageAll(Windows.Windows(imagePaths, window, step, DestPath(dst, paths)), avg)
      case Err(b) => Err(b)
      case Ok(saves) => Ok(AveragedPaths(saves))
    else Ok(SortedPaths(imagePaths))
  }

  predicate AllNonEmpty(folders: seq<seq<string>>)
  {
    forall i :: 0 <= i < |folders| ==> |folders[i]| > 0
  }

  /** The key each folder is stored under, in loop order. */
  function DestPaths(dst: string, folders: seq<seq<string>>): seq<string>
    requires AllNonEmpty(folders)
  {
    seq(|folders|, i requires 0 <= i < |folders| => DestPath(dst, folders[i]))
  }

  /** What the loop body computes for each folder, in loop order. */
  function Outcomes(folders: seq<seq<string>>, dst: string, window: int, step: int, average: bool,
                    captureTime: string -> Option<real>, avg: Batch -> AverageOutcome)
    : seq<Result<FolderOutput, Batch>>
    requires AllNonEmpty(folders)
    requires average && folders != [] ==> WindowParamsOk(window, step)
  {
    seq(|folders|, i requires 0 <= i < |folders| => ProcessFolder(folders[i], dst, window, step, average, captureTime, avg))
  }

  /** `processed[key] = out` after the earlier folders, unless something has raised. */
  function Store(acc: Result<map<string, FolderOutput>, Batch>, key: string, out: Result<FolderOutput, Batch>)
    : Result<map<string, FolderOutput>, Batch>
  {
    match acc
    case Err(b) => Err(b)
    case Ok(m) =>
      match out
      case Err(b) => Err(b)
      case Ok(o) => Ok(m[key := o])
  }

  /** The dictionary after storing `outs[i]` under `keys[i]` for each `i` in order, or the first exception. */
  function StoreAll(keys: seq<string>, outs: seq<Result<FolderOutput, Batch>>): Result<map<string, FolderOutput>, Batch>
    requires |keys| == |outs|
    decreases |keys|
  {
    if keys == [] then Ok(map[])
    else
      var n := |keys| - 1;
      Store(StoreAll(keys[..n], outs[..n]), keys[n], outs[n])
  }

  /** The `processed` dictionary `process_folders` returns for the yielded `folders`, or the exception it raises. */
  function ProcessAll(folders: seq<seq<string>>, dst: string, window: int, step: int, average: bool,
                      captureTime: string -> Option<real>, avg: Batch -> AverageOutcome)
    : Result<map<string, FolderOutput>, Batch>
    requires AllNonEmpty(folders)
    requires average && folders != [] ==> WindowParamsOk(window, step)
  {
    StoreAll(DestPaths(dst, folders), Outcomes(folders, dst, window, step, average, captureTime, avg))
  }

  lemma StoreAllSnoc(keys: seq<string>, outs: seq<Result<FolderOutput, Batch>>, k: string, o: Result<FolderOutput, Batch>)
    requires |keys| == |outs|
    ensures StoreAll(keys + [k], outs + [o]) == Store(StoreAll(keys, outs), k, o)
  {
    assert (keys + [k])[..|keys|] == keys;
    assert (outs + [o])[..|outs|] == outs;
  }

  /** Once a folder has raised, the later folders are never handled: the exception is the result. */
  lemma {:induction false} StoreAllStopsAtError(keys: seq<string>, outs: seq<Result<FolderOutput, Batch>>, i: nat)
    requires |keys| == |outs| && i <= |keys|
    requires StoreAll(keys[..i], outs[..i]).Err?
    ensures StoreAll(keys, outs) == StoreAll(keys[..i], outs[..i])
    decreases |keys|
  {
    var n := |keys|;
    if i < n {
      assert keys[..n - 1][..i] == keys[..i];
      assert outs[..n - 1][..i] == outs[..i];
      StoreAllStopsAtError(keys[..n - 1], outs[..n - 1], i);
    } else {
      assert keys[..i] == keys && outs[..i] == outs;
    }
  }

  /** Storing succeeds exactly when every folder succeeds. */
  lemma {:induction false} StoreAllOkIff(keys: seq<string>, outs: seq<Result<FolderOutput, Batch>>)
    requires |keys| == |outs|
    ensures StoreAll(keys, outs).Ok? <==> forall i :: 0 <= i < |outs| ==> outs[i].Ok?
    decreases |keys|
  {
    var n := |keys|;
    if n > 0 {
      StoreAllOkIff(keys[..n - 1], outs[..n - 1]);
      assert forall i :: 0 <= i < n - 1 ==> outs[..n - 1][i] == outs[i];
    }
  }

  /** A failed run reports the exception of the first folder that raised. */
  lemma {:induction false} StoreAllErr(keys: seq<string>, outs: seq<Result<FolderOutput, Batch>>)
    requires |keys| == |outs| && StoreAll(keys, outs).Err?
    ensures exists k :: (0 <= k < |outs| && outs[k] == Err(StoreAll(keys, outs).error) &&
      forall j :: 0 <= j < k ==> outs[j].Ok?)
    decreases |keys|
  {
    var n := |keys|;
    var init, initOuts := keys[..n - 1], outs[..n - 1];
    assert forall i :: 0 <= i < n - 1 ==> initOuts[i] == outs[i];
    if StoreAll(init, initOuts).Err? {
      StoreAllErr(init, initOuts);
      var k :| 0 <= k < n - 1 && initOuts[k] == Err(StoreAll(init, initOuts).error) &&
        forall j :: 0 <= j < k ==> initOuts[j].Ok?;
    } else {
      StoreAllOkIff(init, initOuts);
      assert outs[n - 1] == Err(StoreAll(keys, outs).error);
    }
  }

  /** A successful run has exactly the folders' keys. */
  lemma {:induction false} StoreAllKeys(keys: seq<string>, outs: seq<Result<FolderOutput, Batch>>)
    requires |keys| == |outs| && StoreAll(keys, outs).Ok?
    ensures StoreAll(keys, outs).value.Keys == set k | k in keys
    decreases |keys|
  {
    var n := |keys|;
    if n > 0 {
      var init := keys[..n - 1];
      StoreAllKeys(init, outs[..n - 1]);
      assert keys == init + [keys[n - 1]];
      assert (set k | k in keys) == (set k | k in init) + {keys[n - 1]};
    }
  }

  /** Under each key is the value of the last folder stored under it: a later folder with the same key overwrites. */
  lemma {:induction false} StoreAllLastWins(keys: seq<string>, outs: seq<Result<FolderOutput, Batch>>, i: nat)
    requires |keys| == |outs| && StoreAll(keys, outs).Ok? && i < |keys|
    requires forall j :: i < j < |keys| ==> keys[j] != keys[i]
    ensures keys[i] in StoreAll(keys, outs).value
    ensures outs[i] == Ok(StoreAll(keys, outs).value[keys[i]])
    decreases |keys|
  {
    var n := |keys|;
    if i < n - 1 {
      StoreAllLastWins(keys[..n - 1], outs[..n - 1], i);
    }
  }

  /** Handling one more folder: keep the exception raised so far, else store the folder's result under its key. */
  lemma ProcessAllSnoc(folders: seq<seq<string>>, paths: seq<string>, dst: string, window: int, step: int,
                       average: bool, captureTime: string -> Option<real>, avg: Batch -> AverageOutcome)
    requires AllNonEmpty(folders) && |paths| > 0
    requires average ==> WindowParamsOk(window, step)
    ensures AllNonEmpty(folders + [paths])
    ensures ProcessAll(folders + [paths], dst, window, step, average, captureTime, avg) ==
      Store(ProcessAll(folders, dst, window, step, average, captureTime, avg),
            DestPath(dst, paths), ProcessFolder(paths, dst, window, step, average, captureTime, avg))
  {
    var all := folders + [paths];
    assert forall i :: 0 <= i < |folders| ==> all[i] == folders[i];
    assert DestPaths(dst, all) == DestPaths(dst, folders) + [DestPath(dst, paths)];
    assert Outcomes(all, dst, window, step, average, captureTime, avg) ==
      Outcomes(folders, dst, window, step, average, captureTime, avg) + [ProcessFolder(paths, dst, window, step, average, captureTime, avg)];
    StoreAllSnoc(DestPaths(dst, folders), Outcomes(folders, dst, window, step, average, captureTime, avg),
                 DestPath(dst, paths), ProcessFolder(paths, dst, window, step, average, captureTime, avg));
  }

  /** Once a folder has raised, the later folders are never handled: that exception is the result. */
  lemma ProcessAllStopsAtError(folders: seq<seq<string>>, i: nat, dst: string, window: int, step: int,
                               average: bool, captureTime: string -> Option<real>, avg: Batch -> AverageOutcome)
    requires AllNonEmpty(folders) && i <= |folders|
    requires average && folders != [] ==> WindowParamsOk(window, step)
    requires AllNonEmpty(folders[..i])
    requires ProcessAll(folders[..i], dst, window, step, average, captureTime, avg).Err?
    ensures ProcessAll(folders, dst, window, step, average, captureTime, avg) ==
      ProcessAll(folders[..i], dst, window, step, average, captureTime, avg)
  {
    var keys := DestPaths(dst, folders);
    var outs := Outcomes(folders, dst, window, step, average, captureTime, avg);
    assert forall j :: 0 <= j < i ==> folders[..i][j] == folders[j];
    assert keys[..i] == DestPaths(dst, folders[..i]);
    assert outs[..i] == Outcomes(folders[..i], dst, window, step, average, captureTime, avg);
    StoreAllStopsAtError(keys, outs, i);
  }

  lemma PrefixSnoc<T>(s: seq<T>, i: nat)
    requires i < |s|
    ensures s[..i + 1] == s[..i] + [s[i]]
  {
  }

  /** Every list the walk yields is non-empty. */
  lemma WalkYieldsNonEmpty(src: string, root: Entry, filetype: string)
    ensures AllNonEmpty(Walk(src, root, filetype))
  {
    var folders := Walk(src, root, filetype);
    forall i | 0 <= i < |folders| ensures |folders[i]| > 0 {
      WalkYieldsLeafListings(src, root, filetype, folders[i]);
    }
  }

  /**
   * One pass of the `for paths in folders` loop body: name the destination,
   * order the folder by capture time, then average its windows or keep the order.
   */
  method ProcessOneFolder(paths: seq<string>, dst: string, window: int, step: int, average: bool,
                          captureTime: string -> Option<real>, avg: Batch -> AverageOutcome)
    returns (destPath: string, out: Result<FolderOutput, Batch>)
    requires |paths| > 0
    requires average ==> WindowParamsOk(window, step)
    ensures destPath == DestPath(dst, paths)
    ensures out == ProcessFolder(paths, dst, window, step, average, captureTime, avg)
  {
    var foldername := DirName(paths[0]);
    foldername := BaseName(foldername);
    destPath := Join(dst, foldername);
    var imagePaths := SortedImagePaths(captureTime, paths);
    if average {
      SortedImagePathsFacts(captureTime, paths);
      var saves := ProcessImages(imagePaths, window, step, Some(destPath), avg);
      match saves
      case Err(b) => out := Err(b);
      case Ok(s) => out := Ok(AveragedPaths(s));
    } else {
      out := Ok(SortedPaths(imagePaths));
    }
  }

  /**
   * `process_folders(src, dst, window, step, filetype, average)` over the tree
   * `root` at `src`. The capture times and the averaging outcomes are oracles;
   * the worker pools and the progress output are not modelled.
   */
  method ProcessFolders(src: string, root: Entry, dst: string, window: int, step: int, filetype: string,
                        average: bool, captureTime: string -> Option<real>, avg: Batch -> AverageOutcome)
    returns (processed: Result<map<string, FolderOutput>, Batch>)
    requires average && Walk(src, root, filetype) != [] ==> WindowParamsOk(window, step)
    ensures AllNonEmpty(Walk(src, root, filetype))
    ensures processed == ProcessAll(Walk(src, root, filetype), dst, window, step, average, captureTime, avg)
  {
    var folders := Walk(src, root, filetype);
    WalkYieldsNonEmpty(src, root, filetype);
    var acc: map<string, FolderOutput> := map[];
    var i := 0;
    while i < |folders|
      invariant 0 <= i <= |folders|
      invariant AllNonEmpty(folders[..i])
      invariant ProcessAll(folders[..i], dst, window, step, average, captureTime, avg) == Ok(acc)
    {
      var paths := folders[i];
      var destPath, out := ProcessOneFolder(paths, dst, window, step, average, captureTime, avg);
      ProcessAllSnoc(folders[..i], paths, dst, window, step, average, captureTime, avg);
      PrefixSnoc(folders, i);
      if out.Err? {
        ProcessAllStopsAtError(folders, i + 1, dst, window, step, average, captureTime, avg);
        processed := Err(out.error);
        return;
      }
      acc := acc[destPath := out.value];
      i := i + 1;
    }
    assert folders[..i] == folders;
    processed := Ok(acc);
  }

  lemma KeysAsSet(dst: string, folders: seq<seq<string>>)
    requires AllNonEmpty(folders)
    ensures (set k | k in DestPaths(dst, folders)) == set i | 0 <= i < |folders| :: DestPath(dst, folders[i])
  {
    var keys := DestPaths(dst, folders);
    forall x | x in keys ensures exists i :: 0 <= i < |folders| && x == DestPath(dst, folders[i]) {
      var i :| 0 <= i < |keys| && keys[i] == x;
    }
    forall i | 0 <= i < |folders| ensures DestPath(dst, folders[i]) in keys {
      assert keys[i] == DestPath(dst, folders[i]);
    }
  }

  /** A run of the loop over `folders` succeeds exactly when no folder raises, and, since the capture-time oracle never raises, always with averaging off. */
  lemma ProcessAllOkIff(folders: seq<seq<string>>, dst: string, window: int, step: int, average: bool,
                        captureTime: string -> Option<real>, avg: Batch -> AverageOutcome)
    requires AllNonEmpty(folders)
    requires average && folders != [] ==> WindowParamsOk(window, step)
    ensures ProcessAll(folders, dst, window, step, average, captureTime, avg).Ok? <==>
      forall i :: 0 <= i < |folders| ==> ProcessFolder(folders[i], dst, window, step, average, captureTime, avg).Ok?
    ensures !average ==> ProcessAll(folders, dst, window, step, average, captureTime, avg).Ok?
  {
    var outs := Outcomes(folders, dst, window, step, average, captureTime, avg);
    StoreAllOkIff(DestPaths(dst, folders), outs);
    assert forall i :: 0 <= i < |folders| ==> outs[i] == ProcessFolder(folders[i], dst, window, step, average, captureTime, avg);
  }

  /** A successful run maps the destination path of each folder, and nothing else. */
  lemma ProcessAllKeys(folders: seq<seq<string>>, dst: string, window: int, step: int, average: bool,
                       captureTime: string -> Option<real>, avg: Batch -> AverageOutcome)
    requires AllNonEmpty(folders)
    requires average && folders != [] ==> WindowParamsOk(window, step)
    requires ProcessAll(folders, dst, window, step, average, captureTime, avg).Ok?
    ensures ProcessAll(folders, dst, window, step, average, captureTime, avg).value.Keys ==
      set i | 0 <= i < |folders| :: DestPath(dst, folders[i])
  {
    StoreAllKeys(DestPaths(dst, folders), Outcomes(folders, dst, window, step, average, captureTime, avg));
    KeysAsSet(dst, folders);
  }

  /**
   * In a successful run, a folder whose destination no later folder shares keeps
   * its own result there; a later folder with the same name overwrites it.
   */
  lemma ProcessAllLastWins(folders: seq<seq<string>>, dst: string, window: int, step: int, average: bool,
                           captureTime: string -> Option<real>, avg: Batch -> AverageOutcome, i: nat)
    requires AllNonEmpty(folders) && i < |folders|
    requires average ==> WindowParamsOk(window, step)
    requires ProcessAll(folders, dst, window, step, average, captureTime, avg).Ok?
    requires forall j :: i < j < |folders| ==> DestPath(dst, folders[j]) != DestPath(dst, folders[i])
    ensures DestPath(dst, folders[i]) in ProcessAll(folders, dst, window, step, average, captureTime, avg).value
    ensures ProcessFolder(folders[i], dst, window, step, average, captureTime, avg) ==
      Ok(ProcessAll(folders, dst, window, step, average, captureTime, avg).value[DestPath(dst, folders[i])])
  {
    var keys := DestPaths(dst, folders);
    var outs := Outcomes(folders, dst, window, step, average, captureTime, avg);
    forall j | i < j < |keys| ensures keys[j] != keys[i] {
      assert keys[j] == DestPath(dst, folders[j]);
    }
    StoreAllLastWins(keys, outs, i);
    assert outs[i] == ProcessFolder(folders[i], dst, window, step, average, captureTime, avg);
  }

  /** A failed run raises the exception of the first folder whose averaging raised; every earlier folder succeeded. */
  lemma ProcessAllErr(folders: seq<seq<string>>, dst: string, window: int, step: int, average: bool,
                      captureTime: string -> Option<real>, avg: Batch -> AverageOutcome)
    requires AllNonEmpty(folders)
    requires average && folders != [] ==> WindowParamsOk(window, step)
    requires ProcessAll(folders, dst, window, step, average, captureTime, avg).Err?
    ensures average
    ensures exists k :: (0 <= k < |folders| &&
      ProcessFolder(folders[k], dst, window, step, average, captureTime, avg) ==
        Err(ProcessAll(folders, dst, window, step, average, captureTime, avg).error) &&
      forall j :: 0 <= j < k ==> ProcessFolder(folders[j], dst, window, step, average, captureTime, avg).Ok?)
  {
    var keys := DestPaths(dst, folders);
    var outs := Outcomes(folders, dst, window, step, average, captureTime, avg);
    StoreAllOkIff(keys, outs);
    StoreAllErr(keys, outs);
    var k :| 0 <= k < |outs| && outs[k] == Err(StoreAll(keys, outs).error) && forall j :: 0 <= j < k ==> outs[j].Ok?;
    assert ProcessFolder(folders[k], dst, window, step, average, captureTime, avg) == outs[k];
    forall j | 0 <= j < k ensures ProcessFolder(folders[j], dst, window, step, average, captureTime, avg).Ok? {
      assert outs[j].Ok?;
    }
  }

  /** `BaseName` never holds a separator. */
  lemma BaseNameHasNoSlash(p: string)
    ensures '/' !in BaseName(p)
  {
    var i := AfterLast(p, '/');
    forall j | 0 <= j < |p| - i ensures BaseName(p)[j] != '/' {
      assert BaseName(p)[j] == p[i + j];
    }
  }

  /** Two folders share a key exactly when they share a folder name. */
  lemma DestPathSameIffSameName(dst: string, p: seq<string>, q: seq<string>)
    requires |p| > 0 && |q| > 0
    ensures DestPath(dst, p) == DestPath(dst, q) <==> FolderName(p) == FolderName(q)
  {
    var a, b := FolderName(p), FolderName(q);
    BaseNameHasNoSlash(DirName(p[0]));
    BaseNameHasNoSlash(DirName(q[0]));
    assert a == [] || a[0] != '/';
    assert b == [] || b[0] != '/';
    JoinRelative(dst, a);
    JoinRelative(dst, b);
    var pre := JoinPrefix(dst);
    if pre + a == pre + b {
      assert a == (pre + a)[|pre|..];
      assert b == (pre + b)[|pre|..];
    }
  }

  /** Globbing the pattern `tests/flat` + slash + star keeps `tests/flat` in front of each entry name. */
  lemma FlatGlobDir()
    ensures IsDirHead("tests/flat")
    ensures GlobDir("tests/flat") == "tests/flat"
  {
    var d := "tests/flat";
    assert d[|d| - 1] == 't';
    assert Join(d, "*") == d + "/*";
    DirNameOfJoin(d, "*");
  }

  lemma FlatBaseName()
    ensures BaseName("tests/flat") == "flat"
  {
    assert Join("tests", "flat") == "tests/flat";
    BaseNameOfJoin("tests", "flat");
  }

  /** Globbing `tests/flat` lists its entries as `tests/flat/<name>`, so the first path names the folder `flat`. */
  lemma FlatFolderName(name: string)
    requires '/' !in name
    ensures DirName(ChildPath("tests/flat", name)) == "tests/flat"
    ensures BaseName(DirName(ChildPath("tests/flat", name))) == "flat"
  {
    FlatGlobDir();
    DirNameOfJoin("tests/flat", name);
    FlatBaseName();
  }

  /**
   * The end-to-end scenario: `tests/flat` holding `1.jpg` to `5.jpg` with capture
   * times in name order, window 2, step 1 and averaging off gives one entry, under
   * `dst/flat`, holding the five paths in their listed order.
   */
  lemma FlatFolderScenario(dst: string, captureTime: string -> Option<real>, avg: Batch -> AverageOutcome)
    requires forall p :: p in Listing("tests/flat", TestImages()) ==> captureTime(p).Some?
    requires SortedByDate(Records(captureTime, Listing("tests/flat", TestImages())))
    ensures ProcessAll(Walk("tests/flat", Dir("flat", TestImages()), "jpg"), dst, 2, 1, false, captureTime, avg) ==
      Ok(map[Join(dst, "flat") := SortedPaths(Listing("tests/flat", TestImages()))])
  {
    var listing := Listing("tests/flat", TestImages());
    FlatFolderYieldsImagesInOrder("tests/flat", "flat");
    assert listing[0] == ChildPath("tests/flat", "1.jpg");
    assert '/' !in "1.jpg";
    FlatFolderName("1.jpg");
    assert DestPath(dst, listing) == Join(dst, "flat");
    SortedImagePathsFacts(captureTime, listing);
    ProcessAllSnoc([], listing, dst, 2, 1, false, captureTime, avg);
    assert [] + [listing] == [listing];
  }
}
