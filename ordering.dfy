/**
 * Per-folder ordering in `process_folders`: one `get_date` record per path,
 * a stable sort by capture time (Python's `sorted` with a key), and the
 * projection of the paths in that order.
 */
module Ordering {
  import opened Common

  /** The dictionary `get_date` returns: a capture time in seconds since the epoch and a path. */
  datatype DateRecord = DateRecord(datetime: real, path: string)

  /** The sentinel `get_date` is meant to return when it has no timestamp: time 0 and the path `'ERROR'`. */
  const ErrorRecord := DateRecord(0.0, "ERROR")

  /**
   * `get_date(path)`. Reading EXIF tag 306, parsing it and localising it are the
   * oracle `captureTime`. `None` gives the sentinel record; as written, the source
   * raises in that case instead, since its failure paths leave `date` unbound.
   */
  function GetDate(captureTime: string -> Option<real>, path: string): DateRecord
  {
    match captureTime(path)
    case Some(t) => DateRecord(t, path)
    case None => ErrorRecord
  }

  /** `list(pool.map(get_date, paths))`: `pool.map` keeps the order of its input. */
  function Records(captureTime: string -> Option<real>, paths: seq<string>): seq<DateRecord>
  {
    seq(|paths|, i requires 0 <= i < |paths| => GetDate(captureTime, paths[i]))
  }

  predicate SortedByDate(s: seq<DateRecord>)
  {
    forall i, j :: 0 <= i < j < |s| ==> s[i].datetime <= s[j].datetime
  }

  /** The records of `s` whose capture time is `t`, in their order in `s`. */
  function WithDate(s: seq<DateRecord>, t: real): (r: seq<DateRecord>)
    ensures forall x :: x in r ==> x in s && x.datetime == t
    ensures forall i :: 0 <= i < |s| && s[i].datetime == t ==> s[i] in r
  {
    if s == [] then []
    else (if s[0].datetime == t then [s[0]] else []) + WithDate(s[1..], t)
  }

  /** Puts `x` in front of the first record of the sorted `s` that is not earlier than it. */
  function Insert(x: DateRecord, s: seq<DateRecord>): seq<DateRecord>
  {
    if s == [] || x.datetime <= s[0].datetime then [x] + s
    else [s[0]] + Insert(x, s[1..])
  }

  /** `sorted(records, key=lambda i: i['datetime'])`, as an insertion sort from the back. */
  function SortByDate(s: seq<DateRecord>): seq<DateRecord>
  {
    if s == [] then [] else Insert(s[0], SortByDate(s[1..]))
  }

  /** `[x['path'] for x in records]`. */
  function PathsOf(s: seq<DateRecord>): seq<string>
  {
    seq(|s|, i requires 0 <= i < |s| => s[i].path)
  }

  /** `image_paths` of one folder: its paths ordered by capture time. */
  function SortedImagePaths(captureTime: string -> Option<real>, paths: seq<string>): seq<string>
  {
    PathsOf(SortByDate(Records(captureTime, paths)))
  }

  lemma PathsOfCons(x: DateRecord, s: seq<DateRecord>)
    ensures PathsOf([x] + s) == [x.path] + PathsOf(s)
  {
    assert forall i :: 0 <= i < |s| ==> PathsOf([x] + s)[i + 1] == PathsOf(s)[i];
  }

  lemma {:induction false} InsertPermutes(x: DateRecord, s: seq<DateRecord>)
    ensures multiset(Insert(x, s)) == multiset{x} + multiset(s)
    ensures multiset(PathsOf(Insert(x, s))) == multiset{x.path} + multiset(PathsOf(s))
    decreases |s|
  {
    if s == [] || x.datetime <= s[0].datetime {
      PathsOfCons(x, s);
    } else {
      var rest := Insert(x, s[1..]);
      InsertPermutes(x, s[1..]);
      assert s == [s[0]] + s[1..];
      PathsOfCons(s[0], rest);
      PathsOfCons(s[0], s[1..]);
    }
  }

  lemma {:induction false} InsertSorted(x: DateRecord, s: seq<DateRecord>)
    requires SortedByDate(s)
    ensures SortedByDate(Insert(x, s))
    decreases |s|
  {
    if !(s == [] || x.datetime <= s[0].datetime) {
      var rest := Insert(x, s[1..]);
      InsertSorted(x, s[1..]);
      InsertPermutes(x, s[1..]);
      forall j | 0 <= j < |rest| ensures s[0].datetime <= rest[j].datetime {
        assert rest[j] in multiset(rest);
      }
    }
  }

  lemma {:induction false} InsertWithDate(x: DateRecord, s: seq<DateRecord>, t: real)
    ensures WithDate(Insert(x, s), t) == (if x.datetime == t then [x] else []) + WithDate(s, t)
    decreases |s|
  {
    if s == [] || x.datetime <= s[0].datetime {
      assert ([x] + s)[1..] == s;
    } else {
      var rest := Insert(x, s[1..]);
      InsertWithDate(x, s[1..], t);
      assert ([s[0]] + rest)[1..] == rest;
      var pre0 := if s[0].datetime == t then [s[0]] else [];
      var preX := if x.datetime == t then [x] else [];
      assert WithDate(Insert(x, s), t) == pre0 + WithDate(rest, t);
      assert WithDate(s, t) == pre0 + WithDate(s[1..], t);
      var w := WithDate(s[1..], t);
      if s[0].datetime == t {
        assert preX == [] && preX + w == w && preX + (pre0 + w) == pre0 + w;
      } else {
        assert pre0 == [] && pre0 + w == w && pre0 + (preX + w) == preX + w;
      }
    }
  }

  /** The sort returns a permutation of its input, ordered by time, that keeps the input order among equal times. */
  lemma {:induction false} SortByDateIsStableSort(s: seq<DateRecord>)
    ensures SortedByDate(SortByDate(s))
    ensures multiset(SortByDate(s)) == multiset(s)
    ensures multiset(PathsOf(SortByDate(s))) == multiset(PathsOf(s))
    ensures forall t :: WithDate(SortByDate(s), t) == WithDate(s, t)
    decreases |s|
  {
    if s != [] {
      SortByDateIsStableSort(s[1..]);
      var r := SortByDate(s[1..]);
      InsertSorted(s[0], r);
      InsertPermutes(s[0], r);
      assert s == [s[0]] + s[1..];
      PathsOfCons(s[0], s[1..]);
      forall t ensures WithDate(SortByDate(s), t) == WithDate(s, t) {
        InsertWithDate(s[0], r, t);
      }
    }
  }

  /** Two time-ordered sequences with the same records at every time, in the same order, are equal. */
  lemma {:induction false} StableOrderIsUnique(u: seq<DateRecord>, v: seq<DateRecord>)
    requires SortedByDate(u) && SortedByDate(v)
    requires forall t :: WithDate(u, t) == WithDate(v, t)
    ensures u == v
    decreases |u|
  {
    EmptyTogether(u, v);
    if u != [] {
      HeadsSameTime(u, v);
      UniqueStep(u, v);
      StableOrderIsUnique(u[1..], v[1..]);
      assert u == [u[0]] + u[1..] && v == [v[0]] + v[1..];
    }
  }

  lemma EmptyTogether(u: seq<DateRecord>, v: seq<DateRecord>)
    requires forall t :: WithDate(u, t) == WithDate(v, t)
    ensures u == [] <==> v == []
  {
    if v != [] {
      assert v[0] in WithDate(v, v[0].datetime);
    }
    if u != [] {
      assert u[0] in WithDate(u, u[0].datetime);
    }
  }

  lemma HeadsSameTime(u: seq<DateRecord>, v: seq<DateRecord>)
    requires SortedByDate(u) && SortedByDate(v) && u != [] && v != []
    requires forall t :: WithDate(u, t) == WithDate(v, t)
    ensures u[0].datetime == v[0].datetime
  {
    var a, b := u[0].datetime, v[0].datetime;
    assert u[0] in WithDate(u, a);
    assert u[0] in WithDate(v, a);
    assert v[0] in WithDate(v, b);
    assert v[0] in WithDate(u, b);
    assert b <= a by {
      var k :| 0 <= k < |v| && v[k] == u[0];
    }
    assert a <= b by {
      var k :| 0 <= k < |u| && u[k] == v[0];
    }
  }

  lemma UniqueStep(u: seq<DateRecord>, v: seq<DateRecord>)
    requires u != [] && v != [] && u[0].datetime == v[0].datetime
    requires forall t :: WithDate(u, t) == WithDate(v, t)
    ensures u[0] == v[0]
    ensures forall t :: WithDate(u[1..], t) == WithDate(v[1..], t)
  {
    var a := u[0].datetime;
    assert WithDate(u, a)[0] == u[0] && WithDate(v, a)[0] == v[0];
    forall t ensures WithDate(u[1..], t) == WithDate(v[1..], t) {
      var pre := if a == t then [u[0]] else [];
      assert WithDate(u, t) == pre + WithDate(u[1..], t);
      assert WithDate(v, t) == pre + WithDate(v[1..], t);
      assert (pre + WithDate(u[1..], t))[|pre|..] == WithDate(u[1..], t);
      assert (pre + WithDate(v[1..], t))[|pre|..] == WithDate(v[1..], t);
    }
  }

  /** Any stable sort by time of `s` gives exactly `SortByDate(s)`. */
  lemma SortByDateIsTheStableSort(s: seq<DateRecord>, u: seq<DateRecord>)
    requires SortedByDate(u) && forall t :: WithDate(u, t) == WithDate(s, t)
    ensures u == SortByDate(s)
  {
    SortByDateIsStableSort(s);
    StableOrderIsUnique(u, SortByDate(s));
  }

  /** Records already in time order are left as they are. */
  lemma SortByDateKeepsOrderedInput(s: seq<DateRecord>)
    requires SortedByDate(s)
    ensures SortByDate(s) == s
  {
    SortByDateIsTheStableSort(s, s);
  }

  /** A sentinel record comes before every record with a positive capture time. */
  lemma ErrorRecordsComeFirst(s: seq<DateRecord>, i: nat, j: nat)
    requires i < |SortByDate(s)| && j < |SortByDate(s)|
    requires SortByDate(s)[i] == ErrorRecord && SortByDate(s)[j].datetime > 0.0
    ensures i < j
  {
    SortByDateIsStableSort(s);
  }

  /**
   * A folder's `image_paths`: ordered by capture time, a permutation of the paths
   * with each failed one replaced by `'ERROR'`, and equal to the input when every
   * time is known and the listing is already in time order.
   */
  lemma SortedImagePathsFacts(captureTime: string -> Option<real>, paths: seq<string>)
    ensures |SortedImagePaths(captureTime, paths)| == |paths|
    ensures multiset(SortedImagePaths(captureTime, paths)) == multiset(PathsOf(Records(captureTime, paths)))
    ensures forall i :: 0 <= i < |paths| ==>
      PathsOf(Records(captureTime, paths))[i] == (if captureTime(paths[i]).Some? then paths[i] else "ERROR")
    ensures SortedByDate(Records(captureTime, paths)) && (forall p :: p in paths ==> captureTime(p).Some?) ==>
      SortedImagePaths(captureTime, paths) == paths
  {
    var recs := Records(captureTime, paths);
    SortByDateIsStableSort(recs);
    assert |multiset(SortByDate(recs))| == |recs|;
    if SortedByDate(recs) && (forall p :: p in paths ==> captureTime(p).Some?) {
      SortByDateKeepsOrderedInput(recs);
      assert PathsOf(recs) == paths by {
        forall i | 0 <= i < |paths| ensures PathsOf(recs)[i] == paths[i] {
          assert captureTime(paths[i]).Some?;
        }
      }
    }
  }
}
