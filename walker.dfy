/**
 * Leaf-folder discovery (`get_batch_recursive`). The filesystem is a finite
 * tree of entries as `glob('*')` sees them (hidden entries are not in it), each
 * directory's entries in sorted order. The generator becomes a function that
 * returns the yielded path lists in yield order.
 */
module Walker {
  import opened PosixPath

  datatype Entry = File(name: string) | Dir(name: string, children: seq<Entry>)

  /** The directory part that `glob` keeps when it expands the pattern `src` + slash + star. */
  function GlobDir(src: string): string
  {
    DirName(src + "/*")
  }

  /** The path the glob listing of `src` returns for the entry called `name` when it lists the directory `src`. */
  function ChildPath(src: string, name: string): string
  {
    Join(GlobDir(src), name)
  }

  /** The sorted glob listing for the directory at `src` whose entries are `entries`. */
  function Listing(src: string, entries: seq<Entry>): seq<string>
  {
    seq(|entries|, i requires 0 <= i < |entries| => ChildPath(src, entries[i].name))
  }

  /**
   * The lists `get_batch_recursive(src, filetype)` yields, in order, when `node`
   * is the entry at `src`. Globbing a plain file lists nothing. A directory whose
   * first entry is a directory is taken to hold only directories, which are walked
   * in order; a directory whose first entry has extension `filetype` yields its
   * whole listing, other extensions included.
   */
  function Walk(src: string, node: Entry, filetype: string): seq<seq<string>>
    decreases node, 1
  {
    match node
    case File(_) => []
    case Dir(_, entries) =>
      if entries == [] then []
      else if entries[0].Dir? then WalkEach(src, node, 0, filetype)
      else
        var tmp := Listing(src, entries);
        if Extension(tmp[0]) == filetype then [tmp] else []
  }

  /** The `for subdir in tmp` loop of `Walk`, from entry `i` on. */
  function WalkEach(src: string, node: Entry, i: nat, filetype: string): seq<seq<string>>
    requires node.Dir? && i <= |node.children|
    decreases node, 0, |node.children| - i
  {
    if i == |node.children| then []
    else
      var sub := node.children[i];
      Walk(ChildPath(src, sub.name), sub, filetype) + WalkEach(src, node, i + 1, filetype)
  }

  /**
   * The walk reaches the directory listed at `dir` with entries `entries`: it is
   * the start, or the start's first entry is a directory and the walk reaches it
   * from one of the start's entries.
   */
  ghost predicate Reaches(src: string, node: Entry, dir: string, entries: seq<Entry>)
    decreases node
  {
    node.Dir? &&
    ((src == dir && node.children == entries) ||
     (node.children != [] && node.children[0].Dir? &&
      exists i :: 0 <= i < |node.children| &&
        Reaches(ChildPath(src, node.children[i].name), node.children[i], dir, entries)))
  }

  /** A directory the walk yields: its first entry is a plain file with extension `filetype`. */
  ghost predicate IsLeaf(dir: string, entries: seq<Entry>, filetype: string)
  {
    entries != [] && entries[0].File? && Extension(ChildPath(dir, entries[0].name)) == filetype
  }

  lemma {:induction false} WalkEachMember(src: string, node: Entry, i: nat, filetype: string, b: seq<string>)
    requires node.Dir? && i <= |node.children|
    requires b in WalkEach(src, node, i, filetype)
    ensures exists j :: (i <= j < |node.children| &&
      b in Walk(ChildPath(src, node.children[j].name), node.children[j], filetype))
    decreases |node.children| - i
  {
    var sub := node.children[i];
    if b !in Walk(ChildPath(src, sub.name), sub, filetype) {
      WalkEachMember(src, node, i + 1, filetype, b);
    }
  }

  lemma {:induction false} WalkEachContains(src: string, node: Entry, i: nat, j: nat, filetype: string, b: seq<string>)
    requires node.Dir? && i <= j < |node.children|
    requires b in Walk(ChildPath(src, node.children[j].name), node.children[j], filetype)
    ensures b in WalkEach(src, node, i, filetype)
    decreases j - i
  {
    if i < j {
      WalkEachContains(src, node, i + 1, j, filetype, b);
    }
  }

  /** Every list the walk yields is the whole listing of a leaf directory it reaches. */
  lemma {:induction false} WalkYieldsLeafListings(src: string, node: Entry, filetype: string, b: seq<string>)
    requires b in Walk(src, node, filetype)
    ensures exists dir, entries :: (Reaches(src, node, dir, entries) && IsLeaf(dir, entries, filetype) &&
      b == Listing(dir, entries))
    decreases node
  {
    var entries := node.children;
    if entries[0].Dir? {
      WalkEachMember(src, node, 0, filetype, b);
      var j :| 0 <= j < |entries| && b in Walk(ChildPath(src, entries[j].name), entries[j], filetype);
      WalkYieldsLeafListings(ChildPath(src, entries[j].name), entries[j], filetype, b);
      var dir, es :| Reaches(ChildPath(src, entries[j].name), entries[j], dir, es) && IsLeaf(dir, es, filetype) &&
        b == Listing(dir, es);
      assert Reaches(src, node, dir, es);
    } else {
      assert Reaches(src, node, src, entries);
    }
  }

  /** Every leaf directory the walk reaches is yielded, with its whole listing. */
  lemma {:induction false} WalkYieldsEveryLeaf(src: string, node: Entry, filetype: string, dir: string, entries: seq<Entry>)
    requires Reaches(src, node, dir, entries) && IsLeaf(dir, entries, filetype)
    ensures Listing(dir, entries) in Walk(src, node, filetype)
    decreases node
  {
    if !(src == dir && node.children == entries) {
      var i :| 0 <= i < |node.children| &&
        Reaches(ChildPath(src, node.children[i].name), node.children[i], dir, entries);
      WalkYieldsEveryLeaf(ChildPath(src, node.children[i].name), node.children[i], filetype, dir, entries);
      WalkEachContains(src, node, 0, i, filetype, Listing(dir, entries));
    }
  }

  /** Python's `<` on strings: lexicographic by code point, a proper prefix first. */
  predicate LexLess(a: string, b: string)
    decreases |a|
  {
    b != [] && (a == [] || a[0] < b[0] || (a[0] == b[0] && LexLess(a[1..], b[1..])))
  }

  lemma {:induction false} LexLessPrefix(p: string, a: string, b: string)
    ensures LexLess(p + a, p + b) == LexLess(a, b)
    decreases |p|
  {
    if p != [] {
      assert (p + a)[1..] == p[1..] + a;
      assert (p + b)[1..] == p[1..] + b;
      LexLessPrefix(p[1..], a, b);
    } else {
      assert p + a == a && p + b == b;
    }
  }

  /** What `glob('*')` can return as an entry name: non-empty, no slash, not hidden. */
  predicate NameOk(name: string)
  {
    name != [] && '/' !in name && name[0] != '.'
  }

  predicate EntriesSorted(entries: seq<Entry>)
  {
    forall i, j :: 0 <= i < j < |entries| ==> LexLess(entries[i].name, entries[j].name)
  }

  /** The tree is what a listing can show: entry names as `glob` returns them, every directory in sorted order. */
  ghost predicate WellFormed(node: Entry)
    decreases node
  {
    node.Dir? ==>
      EntriesSorted(node.children) &&
      forall i :: 0 <= i < |node.children| ==> NameOk(node.children[i].name) && WellFormed(node.children[i])
  }

  lemma {:induction false} ReachedIsWellFormed(src: string, node: Entry, dir: string, entries: seq<Entry>)
    requires WellFormed(node) && Reaches(src, node, dir, entries)
    ensures EntriesSorted(entries)
    ensures forall i :: 0 <= i < |entries| ==> NameOk(entries[i].name)
    decreases node
  {
    if !(src == dir && node.children == entries) {
      var i :| 0 <= i < |node.children| &&
        Reaches(ChildPath(src, node.children[i].name), node.children[i], dir, entries);
      ReachedIsWellFormed(ChildPath(src, node.children[i].name), node.children[i], dir, entries);
    }
  }

  /**
   * Each yielded list is non-empty, its first path has extension `filetype`,
   * all its paths lie in one folder, and it is strictly sorted.
   */
  lemma BatchShape(src: string, node: Entry, filetype: string, b: seq<string>)
    requires WellFormed(node) && b in Walk(src, node, filetype)
    ensures |b| > 0 && Extension(b[0]) == filetype
    ensures forall i :: 0 <= i < |b| ==> DirName(b[i]) == DirName(b[0])
    ensures forall i, j :: 0 <= i < j < |b| ==> LexLess(b[i], b[j])
  {
    WalkYieldsLeafListings(src, node, filetype, b);
    var dir: string, entries: seq<Entry> :| Reaches(src, node, dir, entries) && IsLeaf(dir, entries, filetype) &&
      b == Listing(dir, entries);
    ReachedIsWellFormed(src, node, dir, entries);
    var d := GlobDir(dir);
    DirNameShape(dir + "/*");
    forall i | 0 <= i < |b|
      ensures DirName(b[i]) == d
    {
      DirNameOfJoin(d, entries[i].name);
    }
    forall i, j | 0 <= i < j < |b|
      ensures LexLess(b[i], b[j])
    {
      JoinRelative(d, entries[i].name);
      JoinRelative(d, entries[j].name);
      LexLessPrefix(JoinPrefix(d), entries[i].name, entries[j].name);
    }
  }

  /** The base names of a directory's listing are its entry names. */
  lemma ListingBaseNames(src: string, entries: seq<Entry>)
    requires forall i :: 0 <= i < |entries| ==> NameOk(entries[i].name)
    ensures forall i :: 0 <= i < |entries| ==> BaseName(Listing(src, entries)[i]) == entries[i].name
  {
    forall i | 0 <= i < |entries|
      ensures BaseName(Listing(src, entries)[i]) == entries[i].name
    {
      BaseNameOfJoin(GlobDir(src), entries[i].name);
    }
  }

  /** The five files of the flat and deep test folders. */
  function TestImages(): seq<Entry>
  {
    [File("1.jpg"), File("2.jpg"), File("3.jpg"), File("4.jpg"), File("5.jpg")]
  }

  function Names(entries: seq<Entry>): seq<string>
  {
    seq(|entries|, i requires 0 <= i < |entries| => entries[i].name)
  }

  lemma TestImagesAreJpg(src: string)
    ensures Extension(ChildPath(src, "1.jpg")) == "jpg"
  {
    JoinRelative(GlobDir(src), "1.jpg");
    assert '.' in "1.jpg" by { assert "1.jpg"[1] == '.'; }
    ExtensionOfSuffix(JoinPrefix(GlobDir(src)), "1.jpg");
    assert AfterLast("1.jpg", '.') == 2 by {
      assert "1.jpg"[..4] == "1.jp";
      assert "1.jp"[..3] == "1.j";
      assert "1.j"[..2] == "1.";
    }
  }

  lemma TestImageNames()
    ensures Names(TestImages()) == ["1.jpg", "2.jpg", "3.jpg", "4.jpg", "5.jpg"]
    ensures forall i :: 0 <= i < 5 ==> NameOk(TestImages()[i].name)
  {
    forall i | 0 <= i < 5 ensures NameOk(TestImages()[i].name) {
      var n := TestImages()[i].name;
      assert |n| == 5 && n[0] != '/' && n[1] == '.' && n[2] == 'j' && n[3] == 'p' && n[4] == 'g';
    }
  }

  /** A flat folder of the five test images yields one list, with base names `1.jpg` to `5.jpg` in order. */
  lemma FlatFolderYieldsImagesInOrder(src: string, name: string)
    ensures Walk(src, Dir(name, TestImages()), "jpg") == [Listing(src, TestImages())]
    ensures forall i :: 0 <= i < 5 ==> BaseName(Listing(src, TestImages())[i]) == ["1.jpg", "2.jpg", "3.jpg", "4.jpg", "5.jpg"][i]
  {
    TestImagesAreJpg(src);
    TestImageNames();
    ListingBaseNames(src, TestImages());
  }

  /** A deep folder holding one sub-folder of the five test images yields the same single list, under that sub-folder. */
  lemma DeepFolderYieldsImagesInOrder(src: string, name: string, sub: string)
    ensures Walk(src, Dir(name, [Dir(sub, TestImages())]), "jpg") == [Listing(ChildPath(src, sub), TestImages())]
  {
    var node := Dir(name, [Dir(sub, TestImages())]);
    FlatFolderYieldsImagesInOrder(ChildPath(src, sub), sub);
    assert WalkEach(src, node, 1, "jpg") == [];
  }
}
