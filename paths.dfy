/** The path arithmetic behind the macro file name (tecplot_tools/hdf.py,
    lines 121-122): `pathlib`'s `suffix` of the last path component and
    Python's `str.replace`, which replaces EVERY occurrence. */
module Paths {

  /** Index of the last `c` in `s`, or -1 (Python's `str.rfind`). */
  function RFind(s: string, c: char): (i: int)
    ensures -1 <= i < |s|
    ensures i >= 0 ==> s[i] == c
    ensures forall j :: i < j < |s| ==> s[j] != c
  {
    if s == [] then -1
    else if s[|s| - 1] == c then |s| - 1
    else RFind(s[..|s| - 1], c)
  }

  /** The last component of a '/'-separated path (`PurePath.name`). */
  function BaseName(path: string): (name: string)
    ensures '/' !in name
    ensures |name| <= |path| && path[|path| - |name|..] == name
    ensures |name| < |path| ==> path[|path| - |name| - 1] == '/'
  {
    path[RFind(path, '/') + 1..]
  }

  /** `PurePath.suffix`: from the last dot of the name, provided that dot is
      neither the first nor the last character of the name; else empty. */
  function Suffix(path: string): string {
    var name := BaseName(path);
    var i := RFind(name, '.');
    if 0 < i < |name| - 1 then name[i..] else ""
  }

  /** A non-empty suffix is a dot and at least one more character, holds no
      further dot or slash, ends the path, and follows a character of the
      name (so a hidden name such as `.h5` has no suffix). */
  lemma {:induction false} SuffixShape(path: string)
    ensures var r := Suffix(path);
      r == "" ||
      (|r| >= 2 && r[0] == '.' && '.' !in r[1..] && '/' !in r &&
       |r| < |path| && path[|path| - |r|..] == r && path[|path| - |r| - 1] != '/')
  {
    var name := BaseName(path);
    var i := RFind(name, '.');
    if 0 < i < |name| - 1 {
      TailShape(path, name, i);
    }
  }

  lemma {:induction false} TailShape(path: string, name: string, i: int)
    requires |name| <= |path| && path[|path| - |name|..] == name && '/' !in name
    requires 0 < i < |name| - 1 && name[i] == '.'
    requires forall j :: i < j < |name| ==> name[j] != '.'
    ensures var r := name[i..];
      |r| >= 2 && r[0] == '.' && '.' !in r[1..] && '/' !in r &&
      |r| < |path| && path[|path| - |r|..] == r && path[|path| - |r| - 1] != '/'
  {
    var r := name[i..];
    assert path[|path| - |r|..] == r;
    assert path[|path| - |r| - 1] == name[i - 1];
    assert forall j :: 0 <= j < |r| - 1 ==> r[1..][j] == name[i + 1 + j];
  }

  /** `rep` before every character of `s` and after the last one: what
      Python's `s.replace("", rep)` returns. */
  function InsertEverywhere(s: string, rep: string): (r: string)
    ensures |r| == |s| + |rep| * (|s| + 1)
  {
    if s == [] then rep else rep + [s[0]] + InsertEverywhere(s[1..], rep)
  }

  /** `pat` occurs in `s` at position `i`. */
  predicate OccursAt(s: string, pat: string, i: nat) {
    i + |pat| <= |s| && s[i..i + |pat|] == pat
  }

  /** Python's `s.replace(pat, rep)`: scans left to right and replaces every
      non-overlapping occurrence of `pat`. */
  function ReplaceAll(s: string, pat: string, rep: string): string
    decreases |s|
  {
    if pat == [] then InsertEverywhere(s, rep)
    else if |s| < |pat| then s
    else if s[..|pat|] == pat then rep + ReplaceAll(s[|pat|..], pat, rep)
    else [s[0]] + ReplaceAll(s[1..], pat, rep)
  }

  /** Where `pat` occurs only as the tail of `s`, only the tail is replaced. */
  lemma {:induction false} ReplaceAllOnlyAtEnd(p: string, pat: string, rep: string)
    requires pat != []
    requires forall i :: 0 <= i < |p| ==> !OccursAt(p + pat, pat, i)
    ensures ReplaceAll(p + pat, pat, rep) == p + rep
    decreases |p|
  {
    var s := p + pat;
    if p == [] {
      assert s == pat && s[..|pat|] == pat && s[|pat|..] == [];
    } else {
      assert !OccursAt(s, pat, 0);
      assert s[..|pat|] != pat;
      assert s[1..] == p[1..] + pat;
      OnlyAtEndTail(p, pat);
      ReplaceAllOnlyAtEnd(p[1..], pat, rep);
      assert [p[0]] + (p[1..] + rep) == p + rep;
    }
  }

  /** Dropping the first character keeps `pat` away from every earlier position. */
  lemma {:induction false} OnlyAtEndTail(p: string, pat: string)
    requires p != []
    requires forall i :: 0 <= i < |p| ==> !OccursAt(p + pat, pat, i)
    ensures forall i :: 0 <= i < |p| - 1 ==> !OccursAt(p[1..] + pat, pat, i)
  {
    var s := p + pat;
    forall i | 0 <= i < |p| - 1 ensures !OccursAt(p[1..] + pat, pat, i) {
      assert !OccursAt(s, pat, i + 1);
      assert (p[1..] + pat)[i..i + |pat|] == s[i + 1..i + 1 + |pat|];
    }
  }

  /** The path of the macro file: the container path with every occurrence
      of its suffix replaced by `.mcr` (tecplot_tools/hdf.py:121-122). */
  function MacroPath(filename: string): string {
    ReplaceAll(filename, Suffix(filename), ".mcr")
  }

  /** When the suffix appears nowhere else in the path, the macro path is the
      container path with `.mcr` in place of its suffix. */
  lemma {:induction false} MacroPathSwapsSuffix(filename: string)
    requires Suffix(filename) != ""
    requires forall i :: 0 <= i < |filename| - |Suffix(filename)| ==> !OccursAt(filename, Suffix(filename), i)
    ensures |Suffix(filename)| < |filename|
    ensures MacroPath(filename) == filename[..|filename| - |Suffix(filename)|] + ".mcr"
  {
    var r := Suffix(filename);
    SuffixShape(filename);
    var stem := filename[..|filename| - |r|];
    assert stem + r == filename;
    ReplaceAllOnlyAtEnd(stem, r, ".mcr");
  }

  /** Without a suffix the replacement of the empty string puts `.mcr`
      before every character and after the last one: the result is never the container path
      with `.mcr` appended, unless the path is empty. */
  lemma {:induction false} MacroPathWithoutSuffix(filename: string)
    requires Suffix(filename) == ""
    ensures MacroPath(filename) == InsertEverywhere(filename, ".mcr")
    ensures |MacroPath(filename)| == 5 * |filename| + 4
    ensures filename != "" ==> MacroPath(filename) != filename + ".mcr"
  {
  }

  lemma {:induction false} ReplaceAllMatch(pat: string, rest: string, rep: string)
    requires pat != []
    ensures ReplaceAll(pat + rest, pat, rep) == rep + ReplaceAll(rest, pat, rep)
  {
    var s := pat + rest;
    assert s[..|pat|] == pat && s[|pat|..] == rest;
  }

  lemma {:induction false} ReplaceAllSkip(c: char, rest: string, pat: string, rep: string)
    requires pat != [] && c != pat[0]
    ensures ReplaceAll([c] + rest, pat, rep) == [c] + ReplaceAll(rest, pat, rep)
  {
    var s := [c] + rest;
    assert s[1..] == rest;
    assert |s| >= |pat| ==> s[..|pat|][0] == c;
  }

  /** A path whose directory and name both end in the pattern has both
      replaced, when the pattern's first character occurs nowhere else. */
  lemma {:induction false} ReplaceAllTwice(d: string, n: string, pat: string, rep: string)
    requires pat != [] && pat[0] !in d && pat[0] !in n
    ensures ReplaceAll(d + (pat + (n + pat)), pat, rep) == d + (rep + (n + rep))
  {
    ReplaceAllTail(n, pat, rep);
    ReplaceAllMatch(pat, n + pat, rep);
    SkipPrefix(d, pat + (n + pat), pat, rep);
  }

  lemma {:induction false} ReplaceAllTail(n: string, pat: string, rep: string)
    requires pat != [] && pat[0] !in n
    ensures ReplaceAll(n + pat, pat, rep) == n + rep
  {
    SkipPrefix(n, pat, pat, rep);
    ReplaceAllMatch(pat, [], rep);
    assert pat + [] == pat && rep + [] == rep;
  }

  lemma RenamesDirectoryAndName()
    ensures ReplaceAll("/r.h5/a.h5", ".h5", ".mcr") == "/r.mcr/a.mcr"
  {
    ReplaceAllTwice("/r", "/a", ".h5", ".mcr");
    assert "/r" + (".h5" + ("/a" + ".h5")) == "/r.h5/a.h5";
    assert "/r" + (".mcr" + ("/a" + ".mcr")) == "/r.mcr/a.mcr";
  }

  /** Characters none of which starts the pattern are kept. */
  lemma {:induction false} SkipPrefix(p: string, rest: string, pat: string, rep: string)
    requires pat != [] && pat[0] !in p
    ensures ReplaceAll(p + rest, pat, rep) == p + ReplaceAll(rest, pat, rep)
    decreases |p|
  {
    if p != [] {
      var x := p[1..] + rest;
      var r := ReplaceAll(rest, pat, rep);
      assert pat[0] !in p[1..] by {
        assert forall k :: 0 <= k < |p[1..]| ==> p[1..][k] == p[k + 1];
      }
      SkipPrefix(p[1..], rest, pat, rep);
      assert p[0] != pat[0] by { assert p[0] in p; }
      ReplaceAllSkip(p[0], x, pat, rep);
      calc {
        ReplaceAll(p + rest, pat, rep);
        { assert p + rest == [p[0]] + x; }
        ReplaceAll([p[0]] + x, pat, rep);
        [p[0]] + ReplaceAll(x, pat, rep);
        [p[0]] + (p[1..] + r);
        { assert [p[0]] + p[1..] == p; }
        p + r;
      }
    } else {
      assert p + rest == rest;
    }
  }

  lemma SuffixOfExample()
    ensures Suffix("/r.h5/a.h5") == ".h5"
  {
    var p := "/r.h5/a.h5";
    assert RFind(p, '/') == 5 by { assert p[5] == '/'; }
    assert BaseName(p) == "a.h5";
    assert RFind("a.h5", '.') == 1 by { assert "a.h5"[1] == '.'; }
  }

  /** A directory named with the same suffix is renamed as well. */
  lemma MacroPathRenamesDirectory()
    ensures MacroPath("/r.h5/a.h5") == "/r.mcr/a.mcr"
  {
    SuffixOfExample();
    RenamesDirectoryAndName();
  }

  /** Replacing a pattern by itself changes nothing. */
  lemma {:induction false} ReplaceAllSelf(s: string, pat: string)
    requires pat != []
    ensures ReplaceAll(s, pat, pat) == s
    decreases |s|
  {
    if |s| >= |pat| {
      if s[..|pat|] == pat {
        ReplaceAllSelf(s[|pat|..], pat);
        assert s == s[..|pat|] + s[|pat|..];
      } else {
        ReplaceAllSelf(s[1..], pat);
        assert s == [s[0]] + s[1..];
      }
    }
  }

  /** A container whose suffix is already `.mcr` gets the macro path of the
      container itself, so the macro file takes the container's place. */
  lemma {:induction false} MacroPathOfMcrContainer(filename: string)
    requires Suffix(filename) == ".mcr"
    ensures MacroPath(filename) == filename
  {
    ReplaceAllSelf(filename, ".mcr");
  }

  /** The last `c` of `s + [c] + t`, when `t` holds none, is the one after `s`. */
  lemma {:induction false} RFindLast(s: string, c: char, t: string)
    requires c !in t
    ensures RFind(s + [c] + t, c) == |s|
    decreases |t|
  {
    var u := s + [c] + t;
    if t != [] {
      assert u[|u| - 1] == t[|t| - 1];
      var t' := t[..|t| - 1];
      assert c !in t' by {
        forall k | 0 <= k < |t'| ensures t'[k] != c { assert t'[k] == t[k]; }
      }
      assert u[..|u| - 1] == s + [c] + t';
      RFindLast(s, c, t');
    } else {
      assert u[|u| - 1] == c;
    }
  }

  /** The last component of `dir + "/" + name`, for a `name` without slashes. */
  lemma {:induction false} BaseNameOf(dir: string, name: string)
    requires '/' !in name
    ensures BaseName(dir + "/" + name) == name
  {
    assert dir + "/" + name == dir + ['/'] + name;
    RFindLast(dir, '/', name);
  }

  /** The last dot of `stem + ext`, for an extension that is a dot and no
      further dot, is the one that starts the extension. */
  lemma {:induction false} RFindExtension(stem: string, ext: string)
    requires ext != [] && ext[0] == '.' && '.' !in ext[1..]
    ensures RFind(stem + ext, '.') == |stem|
  {
    assert stem + ext == stem + ['.'] + ext[1..];
    RFindLast(stem, '.', ext[1..]);
  }

  /** The converse of `SuffixShape`: a name made of a non-empty stem and an
      extension that is a dot followed by at least one character other than
      a dot has that extension as suffix, whatever the directory. */
  lemma {:induction false} SuffixOfName(dir: string, stem: string, ext: string)
    requires stem != [] && '/' !in stem
    requires |ext| >= 2 && ext[0] == '.' && '.' !in ext[1..] && '/' !in ext
    ensures Suffix(dir + "/" + stem + ext) == ext
  {
    var name := stem + ext;
    assert '/' !in name;
    assert dir + "/" + stem + ext == dir + "/" + name;
    BaseNameOf(dir, name);
    RFindExtension(stem, ext);
    assert name[|stem|..] == ext;
  }

  /** The macro path of such a name, when the extension occurs nowhere before
      its end, is the path with `.mcr` in place of the extension. */
  lemma {:induction false} MacroPathOfName(dir: string, stem: string, ext: string)
    requires stem != [] && '/' !in stem
    requires |ext| >= 2 && ext[0] == '.' && '.' !in ext[1..] && '/' !in ext
    requires forall i :: 0 <= i < |dir + "/" + stem| ==> !OccursAt(dir + "/" + stem + ext, ext, i)
    ensures MacroPath(dir + "/" + stem + ext) == dir + "/" + stem + ".mcr"
  {
    SuffixOfName(dir, stem, ext);
    ReplaceAllOnlyAtEnd(dir + "/" + stem, ext, ".mcr");
  }

  /** A pattern whose first character is absent from `p` occurs in `p + pat`
      only at the end. */
  lemma {:induction false} OccursOnlyAtEnd(p: string, pat: string)
    requires pat != [] && pat[0] !in p
    ensures forall i :: 0 <= i < |p| ==> !OccursAt(p + pat, pat, i)
  {
    forall i | 0 <= i < |p| ensures !OccursAt(p + pat, pat, i) {
      assert (p + pat)[i] == p[i];
    }
  }

  /** With no dot in the directory or the stem, an `.h5` container gets the
      same path with `.mcr` as its macro. */
  lemma {:induction false} MacroPathOfH5(dir: string, stem: string)
    requires stem != [] && '/' !in stem && '.' !in dir && '.' !in stem
    ensures MacroPath(dir + "/" + stem + ".h5") == dir + "/" + stem + ".mcr"
  {
    var p := dir + "/" + stem;
    assert '.' !in p;
    OccursOnlyAtEnd(p, ".h5");
    MacroPathOfName(dir, stem, ".h5");
  }
}
