/**
 * The window output path as `process_Images` writes it: the whole joined path
 * `os.path.join(dst, 'Im_{}.JPG')` is used as a `str.format` template, so braces
 * in `dst` (which ends in a source folder name) are read as format syntax. The
 * rest of the model uses `Windows.OutputName`, which formats the file name only.
 */
module NameTemplate {
  import opened Common
  import opened PosixPath
  import opened Decimal
  import opened Windows

  function Prepend(p: string, o: Option<string>): Option<string>
  {
    match o
    case None => None
    case Some(s) => Some(p + s)
  }

  /**
   * Python `t.format(arg)` with one positional argument: `{{` and `}}` stand for
   * one brace, the first `{}` takes `arg` (`used` says it has been taken). A second
   * `{}` raises IndexError; a lone `}` and every other replacement field raise as
   * well when an automatic `{}` comes after them, which holds for every template
   * built here since each ends in `Im_{}.JPG`. `None` is the raised exception.
   */
  function FormatOne(t: string, arg: string, used: bool): Option<string>
    decreases |t|
  {
    if t == [] then Some([])
    else if t[0] == '{' then
      if |t| >= 2 && t[1] == '{' then Prepend("{", FormatOne(t[2..], arg, used))
      else if |t| >= 2 && t[1] == '}' && !used then Prepend(arg, FormatOne(t[2..], arg, true))
      else None
    else if t[0] == '}' then
      if |t| >= 2 && t[1] == '}' then Prepend("}", FormatOne(t[2..], arg, used)) else None
    else Prepend([t[0]], FormatOne(t[1..], arg, used))
  }

  /** `os.path.join(dst, 'Im_{}.JPG').format(image_idx)`, as the source writes it. */
  function AsWrittenName(dst: string, k: nat): Option<string>
  {
    FormatOne(Join(dst, "Im_{}.JPG"), NatToString(k), false)
  }

  lemma {:induction false} FormatBraceFreePrefix(p: string, t: string, arg: string, used: bool)
    requires '{' !in p && '}' !in p
    ensures FormatOne(p + t, arg, used) == Prepend(p, FormatOne(t, arg, used))
    decreases |p|
  {
    if p == [] {
      assert p + t == t;
      match FormatOne(t, arg, used)
      case None =>
      case Some(s) => assert p + s == s;
    } else {
      assert (p + t)[0] == p[0] && (p + t)[1..] == p[1..] + t;
      FormatBraceFreePrefix(p[1..], t, arg, used);
      match FormatOne(t, arg, used)
      case None =>
      case Some(s) => assert [p[0]] + (p[1..] + s) == p + s;
    }
  }

  /** Formatting a template that is `{}` followed by brace-free text. */
  lemma FormatField(rest: string, arg: string)
    requires '{' !in rest && '}' !in rest
    ensures FormatOne("{}" + rest, arg, false) == Some(arg + rest)
  {
    var t := "{}" + rest;
    assert t[0] == '{' && t[1] == '}' && t[2..] == rest + "";
    FormatBraceFreePrefix(rest, "", arg, true);
    assert rest + "" == rest;
  }

  lemma FormatFileName(arg: string)
    ensures FormatOne("Im_{}.JPG", arg, false) == Some("Im_" + arg + ".JPG")
  {
    assert "Im_{}.JPG" == "Im_" + ("{}" + ".JPG");
    FormatBraceFreePrefix("Im_", "{}" + ".JPG", arg, false);
    FormatField(".JPG", arg);
    assert "Im_" + (arg + ".JPG") == "Im_" + arg + ".JPG";
  }

  /** For a destination without braces the source's name is the intended `Im_<k>.JPG` under `dst`. */
  lemma AsWrittenAgreesWithoutBraces(dst: string, k: nat)
    requires '{' !in dst && '}' !in dst
    ensures AsWrittenName(dst, k) == Some(OutputName(dst, k))
  {
    var arg := NatToString(k);
    JoinRelative(dst, "Im_{}.JPG");
    JoinRelative(dst, WindowFileName(k));
    var p := JoinPrefix(dst);
    assert '{' !in p && '}' !in p;
    FormatBraceFreePrefix(p, "Im_{}.JPG", arg, false);
    FormatFileName(arg);
    assert p + ("Im_" + arg + ".JPG") == p + WindowFileName(k);
  }

  /**
   * A source folder named `{}` makes the source raise while it builds the windows;
   * one named `a{{b}}` makes it name window 0 in a folder `a{b}` instead of the
   * folder `a{{b}}` it created, so that save fails unless `a{b}` exists.
   */
  lemma FormatMisreadsBraces()
    ensures AsWrittenName("out/{}", 0) == None
    ensures AsWrittenName("out/a{{b}}", 0) == Some("out/a{b}/Im_0.JPG")
    ensures OutputName("out/a{{b}}", 0) == "out/a{{b}}/Im_0.JPG"
  {
    assert NatToString(0) == "0";
    SecondFieldRaises();
    DoubledBracesCollapse();
    assert WindowFileName(0) == "Im_0.JPG";
  }

  lemma SecondFieldRaises()
    ensures AsWrittenName("out/{}", 0) == None
  {
    assert NatToString(0) == "0";
    var t := "{}/Im_{}.JPG";
    assert Join("out/{}", "Im_{}.JPG") == "out/" + t;
    FormatBraceFreePrefix("out/", t, "0", false);
    assert t[0] == '{' && t[1] == '}' && t[2..] == "/Im_" + "{}.JPG";
    FormatBraceFreePrefix("/Im_", "{}.JPG", "0", true);
    var u := "{}.JPG";
    assert u[0] == '{' && u[1] == '}';
  }

  lemma DoubledBracesCollapse()
    ensures AsWrittenName("out/a{{b}}", 0) == Some("out/a{b}/Im_0.JPG")
  {
    assert NatToString(0) == "0";
    DoubledBracesJoin();
    DoubledBracesTail();
    FormatBraceFreePrefix("out/a", "{{b}}/Im_{}.JPG", "0", false);
    assert "out/a" + "{b}/Im_0.JPG" == "out/a{b}/Im_0.JPG";
  }

  lemma DoubledBracesJoin()
    ensures Join("out/a{{b}}", "Im_{}.JPG") == "out/a" + "{{b}}/Im_{}.JPG"
  {
    JoinRelative("out/a{{b}}", "Im_{}.JPG");
  }

  lemma DoubledBracesTail()
    ensures FormatOne("{{b}}/Im_{}.JPG", "0", false) == Some("{b}/Im_0.JPG")
  {
    ClosingPairTail();
    var t := "{{b}}/Im_{}.JPG";
    assert t[0] == '{' && t[1] == '{';
    assert t[2..] == "b" + "}}/Im_{}.JPG";
    FormatBraceFreePrefix("b", "}}/Im_{}.JPG", "0", false);
    assert "{" + ("b" + "}/Im_0.JPG") == "{b}/Im_0.JPG";
  }

  lemma ClosingPairTail()
    ensures FormatOne("}}/Im_{}.JPG", "0", false) == Some("}/Im_0.JPG")
  {
    FormatFileName("0");
    assert "Im_" + "0" + ".JPG" == "Im_0.JPG";
    FormatBraceFreePrefix("/", "Im_{}.JPG", "0", false);
    assert "/" + "Im_{}.JPG" == "/Im_{}.JPG";
    var u := "}}/Im_{}.JPG";
    assert u[0] == '}' && u[1] == '}' && u[2..] == "/Im_{}.JPG";
    assert "}" + ("/" + "Im_0.JPG") == "}/Im_0.JPG";
  }
}
