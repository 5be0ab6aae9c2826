/**
 * The parts of Python's `posixpath` (what `os.path` is on POSIX systems) and
 * of `str.split` that the timelapse pipeline uses to build and take apart
 * paths: `join` of two parts, `dirname`, `basename`, and the extension test
 * `path.split('.')[-1]`.
 */
module PosixPath {

  /** Index just past the last `c` in `s` (Python `s.rfind(c) + 1`): 0 when `c` does not occur. */
  function AfterLast(s: string, c: char): (i: nat)
    ensures i <= |s|
    ensures 0 < i ==> s[i - 1] == c
    ensures forall j :: i <= j < |s| ==> s[j] != c
  {
    if s == [] then 0
    else if s[|s| - 1] == c then |s|
    else AfterLast(s[..|s| - 1], c)
  }

  predicate AllSlashes(s: string)
  {
    forall i :: 0 <= i < |s| ==> s[i] == '/'
  }

  /** Python `s.rstrip('/')`: the longest prefix of `s` that does not end in a slash. */
  function RStripSlashes(s: string): (r: string)
    ensures |r| <= |s| && r == s[..|r|]
    ensures r == [] || r[|r| - 1] != '/'
    ensures forall j :: |r| <= j < |s| ==> s[j] == '/'
  {
    if s != [] && s[|s| - 1] == '/' then RStripSlashes(s[..|s| - 1]) else s
  }

  /** `posixpath.dirname`: everything up to the last slash, without trailing slashes unless it is only slashes. */
  function DirName(p: string): string
  {
    var head := p[..AfterLast(p, '/')];
    if head != [] && !AllSlashes(head) then RStripSlashes(head) else head
  }

  /** `posixpath.basename`: everything after the last slash. */
  function BaseName(p: string): string
  {
    p[AfterLast(p, '/')..]
  }

  /** `posixpath.join(a, b)`: an absolute `b` replaces `a`; otherwise a slash is put between them unless `a` is empty or already ends in one. */
  function Join(a: string, b: string): string
  {
    if b != [] && b[0] == '/' then b
    else if a == [] || a[|a| - 1] == '/' then a + b
    else a + "/" + b
  }

  /** `p.split('.')[-1]`: the text after the last dot of the whole path, or the whole path when it has no dot. */
  function Extension(p: string): string
  {
    p[AfterLast(p, '.')..]
  }

  /** What `Join(a, b)` puts in front of a relative `b`. */
  function JoinPrefix(a: string): string
  {
    if a == [] || a[|a| - 1] == '/' then a else a + "/"
  }

  /** The shape `dirname` gives to a path that contains a slash: non-empty, and no trailing slash unless it is only slashes. */
  predicate IsDirHead(d: string)
  {
    d != [] && (AllSlashes(d) || d[|d| - 1] != '/')
  }

  lemma JoinRelative(a: string, b: string)
    requires b == [] || b[0] != '/'
    ensures Join(a, b) == JoinPrefix(a) + b
    ensures JoinPrefix(a) == [] || JoinPrefix(a)[|JoinPrefix(a)| - 1] == '/'
  {
  }

  /** Appending text without `c` does not move the last `c`. */
  lemma {:induction false} AfterLastAppend(p: string, tail: string, c: char)
    requires c !in tail
    ensures AfterLast(p + tail, c) == AfterLast(p, c)
    decreases |tail|
  {
    if tail == [] {
      assert p + tail == p;
    } else {
      var t' := tail[..|tail| - 1];
      assert (p + tail)[..|p + tail| - 1] == p + t';
      assert (p + tail)[|p + tail| - 1] == tail[|tail| - 1];
      AfterLastAppend(p, t', c);
    }
  }

  /** Appending text that does contain `c` puts the last `c` inside the appended text. */
  lemma {:induction false} AfterLastInTail(p: string, tail: string, c: char)
    requires c in tail
    ensures AfterLast(p + tail, c) == |p| + AfterLast(tail, c)
    decreases |tail|
  {
    var t' := tail[..|tail| - 1];
    assert (p + tail)[..|p + tail| - 1] == p + t';
    if tail[|tail| - 1] != c {
      assert c in t' by {
        var k :| 0 <= k < |tail| && tail[k] == c;
        assert t'[k] == c;
      }
      AfterLastInTail(p, t', c);
    }
  }

  /** `dirname` of a path with a slash has the dir-head shape. */
  lemma DirNameShape(p: string)
    requires '/' in p
    ensures IsDirHead(DirName(p))
  {
    var i := AfterLast(p, '/');
    assert i > 0 by {
      var k :| 0 <= k < |p| && p[k] == '/';
    }
    var head := p[..i];
  }

  /** Joining a slash-free name onto a dir head and taking it apart again gives back both parts. */
  lemma DirNameOfJoin(d: string, name: string)
    requires IsDirHead(d) && '/' !in name
    ensures DirName(Join(d, name)) == d
    ensures BaseName(Join(d, name)) == name
  {
    JoinRelative(d, name);
    var pre := JoinPrefix(d);
    AfterLastAppend(pre, name, '/');
    assert AfterLast(pre, '/') == |pre|;
    assert (pre + name)[..|pre|] == pre;
    if d[|d| - 1] == '/' {
      assert pre == d;
    } else {
      assert pre == d + "/";
      assert !AllSlashes(pre) by {
        assert pre[|d| - 1] != '/';
      }
      var r := RStripSlashes(pre);
      assert r == d;
    }
  }

  /** The basename of a slash-free name joined onto anything is that name. */
  lemma BaseNameOfJoin(d: string, name: string)
    requires '/' !in name
    ensures BaseName(Join(d, name)) == name
  {
    JoinRelative(d, name);
    var pre := JoinPrefix(d);
    AfterLastAppend(pre, name, '/');
    assert (pre + name)[|pre|..] == name;
  }

  /** The extension of a name that has a dot is unchanged by whatever precedes it. */
  lemma ExtensionOfSuffix(p: string, name: string)
    requires '.' in name
    ensures Extension(p + name) == Extension(name)
  {
    AfterLastInTail(p, name, '.');
    assert (p + name)[|p| + AfterLast(name, '.')..] == name[AfterLast(name, '.')..];
  }
}
