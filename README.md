# TimelapseVideoCreator: folder discovery, ordering, windowing and concat list

A Dafny model of the bookkeeping around the image and video calls of TimelapseVideoCreator:

- `get_batch_recursive` finds the leaf folders of a source tree.
- `process_folders` orders each folder's photographs by capture time. It then stores, per destination folder, either the ordered paths or the result of `process_Images`.
- `process_Images` cuts the ordered paths into sliding windows. It names each window's output image and collects the per-window results of `average_Images`.
- `create_path_file` builds the `file <path>` concat list the encoder reads.

Some things are oracles (function parameters):

- the capture time `get_date` reads from an image;
- whether averaging a window saved its image, failed inside the `try`, or raised while loading its images.

The filesystem is a finite tree of entries, as `glob('*')` sees them, each directory's entries in sorted order. Paths follow POSIX `os.path`.

Modules, one file each:

- `Common`: `Option`, `Result`, `Min`.
- `PosixPath`: `join`, `dirname`, `basename` and `split('.')[-1]`.
- `Decimal`: `str` of a natural number.
- `Strides`: `ceil(n / step)` and Python's `s[0::step]`.
- `Walker`: `get_batch_recursive`.
- `Ordering`: `get_date` records, the stable sort by time, and the projection to paths.
- `Windows`: `process_Images` and the outcome of `average_Images`.
- `Folders`: `process_folders`.
- `ConcatList`: `create_path_file`.
- `NameTemplate`: the output path exactly as the source formats it; see Findings.

Behaviour of the code that a reader might not expect, and which the model keeps:

- **Load failures.** `get_image` runs before the `try` in `average_Images`. So a window whose images fail to load is not skipped: the exception leaves `process_Images` and `process_folders`. The model returns that window as an error (`Windows.AverageAllErr`, `Folders.ProcessAllErr`). Only failures inside the `try` (averaging, saving) give `[]` for the window.
- **Coverage.** The windows cover every index exactly when `step <= window` or the sequence is no longer than one window (`Windows.WindowsCoverAllExactlyWhen`). With a larger step, images between windows are never averaged.
- **Output extension.** Windows are always written as `Im_<index>.JPG`, whatever the input images' extension.
- **Negative step in the concat list.** `paths[0::step]` with a negative step does not reverse the list: it starts at index 0, so it keeps only the first path (`ConcatList.SelectedStride`).
- **Negative step in `process_Images`.** `range(0, n, step)` is then empty, so there are no windows (`Windows.WindowsPlacement`).
- **Image sizes.** The modelled code averages windows as they are loaded. It has no step that brings images to a common resolution.
- **Capture-time failures.** `get_date` raises on every failure: `Image.open` on a non-image, `getexif()[306]` on a missing tag, and the unbound `date` after a failed parse or localisation. So as written the sentinel record `{'datetime': 0, 'path': 'ERROR'}` is never returned. The model's capture-time oracle returns `None` where the sentinel was evidently meant, and models that sentinel policy (see "## Left out").

## Model

| member | source | states |
|---|---|---|
| PosixPath.DirNameOfJoin | timelapse/processing.py:72-73 | joining a directory with a slash-free name and taking `dirname`/`basename` gives the directory and the name back |
| PosixPath.ExtensionOfSuffix | timelapse/processing.py:25 | `split('.')[-1]` of a path ending in a name with a dot is the text after the name's last dot |
| Decimal.NatToStringInjective | timelapse/processing.py:134 | different window indices have different decimal spellings |
| Strides.CeilDiv | timelapse/processing.py:132 | the iteration count `q` of `range(0, n, step)` satisfies `(q-1)*step < n <= q*step`, which pins `q = ceil(n/step)` |
| Strides.StridedLength | timelapse/video.py:6 | `s[0::step]` has `ceil(len(s)/step)` elements for a positive step |
| Strides.StridedAt | timelapse/video.py:6 | element `j` of `s[0::step]` is `s[j*step]`, an index below `len(s)` |
| Walker.WalkYieldsLeafListings | timelapse/processing.py:15-26 | every yielded list is the whole sorted listing of a directory the walk reaches through first-entry-is-a-directory folders, and that directory's first entry is a file whose path has extension `filetype` |
| Walker.WalkYieldsEveryLeaf | timelapse/processing.py:15-26 | conversely, the listing of every such reached directory is yielded |
| Walker.BatchShape | timelapse/processing.py:16-26 | a yielded list is non-empty, its first path has extension `filetype`, all its paths share one `dirname`, and it is strictly sorted |
| Walker.ListingBaseNames | timelapse/processing.py:16 | the base names of a listing are the directory's entry names, in order |
| Walker.FlatFolderYieldsImagesInOrder | tests/test_1.py:8-13 | a flat folder of `1.jpg`..`5.jpg` yields one list whose base names are `1.jpg`..`5.jpg` in order (with `filetype` `jpg`, which the test omits) |
| Walker.DeepFolderYieldsImagesInOrder | tests/test_1.py:15-21 | a folder holding one sub-folder of those images yields the same single list, from the sub-folder (with `filetype` `jpg`, which the test omits) |
| Ordering.WithDate | timelapse/processing.py:78 | the records with a given time are members of the input with that time, and every such member is among them |
| Ordering.SortByDateIsStableSort | timelapse/processing.py:78 | the sort is ordered by time, is a permutation of the records and of their paths, and keeps the input order among records with equal times |
| Ordering.StableOrderIsUnique | timelapse/processing.py:78 | two time-ordered sequences with the same records per time, in the same order, are equal |
| Ordering.SortByDateIsTheStableSort | timelapse/processing.py:78 | any stable time-ordering of the records equals the model's sort |
| Ordering.SortByDateKeepsOrderedInput | timelapse/processing.py:78 | records already in time order are left as they are |
| Ordering.ErrorRecordsComeFirst | timelapse/processing.py:59-60 | under the sentinel policy of the capture-time oracle, a sentinel record `(0, 'ERROR')` sorts before every record with a positive time (as written, lines 59-60 are never reached) |
| Ordering.SortedImagePathsFacts | timelapse/processing.py:76-79 | `image_paths` has one entry per path, is a permutation of the paths with each timeless one replaced by `'ERROR'` (the sentinel policy of the capture-time oracle; as written a timeless path raises), and equals the listing when the listing is already in time order |
| Windows.ProcessImages | timelapse/processing.py:112-138 | the window loop builds exactly the batch list `Windows` describes, with each window named by the corrected file-name formatting of the Findings row, and the result is the pooled averaging of those batches in order |
| Windows.WindowsPlacement | timelapse/processing.py:131-135 | with a positive step there are `ceil(n/step)` windows; window `k` starts at `k*step < n` and holds the `min(window, n-k*step) >= 1` consecutive paths from there; a negative step gives none |
| Windows.WindowLength | timelapse/processing.py:133 | window `k` holds `min(window, n - k*step)` paths |
| Windows.WindowsOverlap | timelapse/processing.py:132-133 | with `step < window`, window `k+1` starts inside window `k` |
| Windows.CoveredWhenStepFits | timelapse/processing.py:132-133 | with `step <= window`, or `n <= window`, every index lies in some window |
| Windows.GapWhenStepTooLarge | timelapse/processing.py:132-133 | with `step > window` and `n > window`, index `window` lies in no window |
| Windows.WindowsCoverAllExactlyWhen | timelapse/processing.py:132-133 | the windows cover every index if and only if `step <= window` or `n <= window` |
| Windows.WindowFileNameInjective | timelapse/processing.py:127 | two windows with the same file name have the same index |
| Windows.WindowNamesDistinct | timelapse/processing.py:124-135 | window `k` is written to `Im_<k>.JPG` under `dst`, and no two windows share an output path |
| Windows.AverageAllOk | timelapse/processing.py:89-109 | the pooled averaging succeeds if and only if no window fails to load; its result then has one entry per window, in order: `[new_path]` if saved, `[]` if averaging raised inside the `try` |
| Windows.AverageAllErr | timelapse/processing.py:92-93 | a failed run raises for the first window, in window order, that failed to load, and all earlier windows loaded |
| Windows.FivePathsWindowTwoStepOne | tests/test_1.py:34-38 | five paths, window 2, step 1, `dst='hans'` give five windows: pairs of neighbours, then the last path alone; the first is written to `hans/Im_0.JPG` |
| Folders.WalkYieldsNonEmpty | timelapse/processing.py:17-26 | every folder the walk yields has at least one path, so `paths[0]` is defined |
| Folders.ProcessOneFolder | timelapse/processing.py:72-84 | one loop pass computes the destination `join(dst, basename(dirname(paths[0])))` and that folder's stored value or exception |
| Folders.ProcessFolders | timelapse/processing.py:64-86 | the loop over the walk's folders returns exactly the dictionary, or the exception, that `ProcessAll` describes |
| Folders.StoreAllOkIff | timelapse/processing.py:71-84 | storing succeeds if and only if every folder's step succeeds |
| Folders.StoreAllErr | timelapse/processing.py:71-84 | a failed run reports the exception of the first failing folder; all earlier folders succeeded |
| Folders.StoreAllKeys | timelapse/processing.py:82-84 | a successful run's keys are exactly the stored keys |
| Folders.StoreAllLastWins | timelapse/processing.py:82-84 | under each key is the value of the last folder stored under it |
| Folders.StoreAllStopsAtError | timelapse/processing.py:81 | once a folder raises, later folders change nothing: that exception is the result |
| Folders.ProcessAllOkIff | timelapse/processing.py:71-84 | `process_folders` returns if and only if no folder raises; under the capture-time oracle, which never raises, it always returns with averaging off |
| Folders.ProcessAllKeys | timelapse/processing.py:75-84 | the returned dictionary's keys are exactly the folders' destination paths |
| Folders.ProcessAllLastWins | timelapse/processing.py:75-84 | a folder whose destination no later folder shares keeps its own value there: the ordered paths with averaging off, the window results with it on |
| Folders.ProcessAllErr | timelapse/processing.py:80-82 | under the capture-time oracle, an exception only happens with averaging on, and it is that of the first folder whose windows failed to load |
| Folders.DestPathSameIffSameName | timelapse/processing.py:72-75 | two folders share a dictionary key if and only if their folder names are equal |
| Folders.FlatFolderScenario | tests/test_1.py:8-13 | `tests/flat` (`filetype` `jpg`) with five images in time order, window 2, step 1, averaging off, returns the single entry `dst/flat` holding the five paths in listed order |
| ConcatList.Normalise | timelapse/video.py:9 | every backslash becomes a slash, every other character is unchanged, and the length is kept |
| ConcatList.NormaliseFacts | timelapse/video.py:9 | a normalised path holds no backslash, and normalising is idempotent |
| ConcatList.CreatePathFile | timelapse/video.py:4-11 | returns `path_file.txt` and the concatenation of one `file <normalised path>\n` line per path of `paths[0::step]`, in order |
| ConcatList.SelectedStride | timelapse/video.py:6 | the selection is `paths[j*step]` for the `ceil(n/step)` values of `j`; all paths for step 1; only the first for a negative step |
| ConcatList.ConcatListRoundTrip | timelapse/video.py:6-10 | if no path holds a newline, the text splits into one line per selected path plus an empty tail, and stripping `file ` gives back the normalised selection |
| ConcatList.ThreePathsStepTwo | timelapse/video.py:6-10 | three paths with step 2 give exactly the lines for the first and the third path, in that order |
| NameTemplate.AsWrittenAgreesWithoutBraces | timelapse/processing.py:127-134 | for a destination without braces, the path as the source formats it equals `Im_<k>.JPG` under `dst` |
| NameTemplate.FormatMisreadsBraces | timelapse/processing.py:127-134 | as written, a destination `out/{}` raises, and `out/a{{b}}` names window 0 `out/a{b}/Im_0.JPG` instead of `out/a{{b}}/Im_0.JPG` |

## Left out

- Pixel work: `get_image`, and the averaging, rounding and saving in `average_Images`. Each window has an oracle that says whether it was saved, failed inside the `try`, or raised while loading.
- Capture times: reading EXIF tag 306, `strptime`, and localising with `pytz` become an oracle `path -> Option<real>`. As written, every failure of `get_date` raises: `Image.open` on a non-image entry, a missing tag 306, and `date` left unbound after a failed parse or localisation. That exception leaves `pool.map` and `process_folders` whatever `average` is. The oracle's `None` models instead the evidently intended sentinel `{'datetime': 0, 'path': 'ERROR'}` of lines 59-60. So `Folders.ProcessAllOkIff`, `Folders.ProcessAllErr`, `Ordering.ErrorRecordsComeFirst` and `Ordering.SortedImagePathsFacts` hold under that policy, not for the code's raising `get_date`.
- Thread pools, `tqdm`, `click.echo`, `os.makedirs` and the logger. Of `pool.map`, only its order preservation is modelled.
- Writing `path_file.txt` to disk is not modelled. `create_path_file` returns the file's text as its second result.
- The encoder calls in `video_from_images` and `video_from_paths` are left out: they are external processes.
- `main.py` is left out: command-line parsing and per-folder encoder dispatch.
- Paths are POSIX only. Windows drive letters and `ntpath` separators are not modelled.
- Glob metacharacters in `src` are not modelled. Neither are hidden entries, which `glob('*')` skips. The tree holds only what `glob` lists.
- Python's `sorted` on names is modelled as `Walker.LexLess` (code-point order). The tree is assumed to be given in that order, so the walk does not sort.
- Windows.ProcessImages: an empty list, a zero step, or a window outside 1..100 make the source raise. These are preconditions here, not modelled error results.
- Folders.ProcessFolders: likewise, with averaging on and at least one folder it requires a window in 1..100 and a non-zero step.
- Windows.ProcessImages: windows are named with the corrected formatting, `join(dst, 'Im_<k>.JPG')`. The source formats the whole joined path, so for a `dst` holding a brace it raises or names a different folder where the model succeeds (see Findings). For a brace-free `dst` the two agree (`NameTemplate.AsWrittenAgreesWithoutBraces`).
- Folders.ProcessFolders: it uses the same corrected window naming, so for a source folder name holding a brace the source raises or misnames where the model returns its result. For brace-free names the two agree (`NameTemplate.AsWrittenAgreesWithoutBraces`).
- Folders.ProcessFolders: the result is a Dafny `map`, which has no order. The Python dict keeps insertion order, and `main.py` encodes folders in that order.
- The tests in `tests/test_1.py` call `get_batch_recursive` without its required `filetype` argument, so as written they raise `TypeError`. The lemmas that mirror them pass `"jpg"`.
- ConcatList.CreatePathFile: it requires a non-zero step, since Python's slice raises on a zero step.

## Findings

| source | as written | input that shows it | evidently intended | confidence | as-written member | corrected member |
|---|---|---|---|---|---|---|
| timelapse/processing.py:127-134 | `new_path = os.path.join(dst, 'Im_{}.JPG')` is formatted as a whole, so braces in `dst` are read as format syntax. `dst` ends in the source folder's name. | A leaf folder named `{}`, i.e. `dst = 'out/{}'`, makes `format` raise `IndexError`. A folder named `a{{b}}` names window 0 `out/a{b}/Im_0.JPG`, in a folder that was never created, so its save raises `FileNotFoundError` inside the `try` and that window's entry is `[]` unless `out/a{b}` happens to exist. | Format only the file name, `os.path.join(dst, 'Im_{}.JPG'.format(k))`: window `k` goes to `Im_<k>.JPG` inside `dst`, and all output paths are distinct. | high; not executed | NameTemplate.FormatMisreadsBraces | Windows.WindowNamesDistinct |
