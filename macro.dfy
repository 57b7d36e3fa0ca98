/** The Tecplot macro that `create_hdf5` writes beside the container
    (tecplot_tools/hdf.py:72-119): the zone and variable lists built by
    loops, and the two templates, one for transient and one for static
    data. A macro is a list of lines joined by newlines. */
module Macro {
  import opened Decimal
  import opened Text

  /** The group path `/Z{it}/` of step `it`, as listed after `-D`. */
  function ZonePath(it: nat): string {
    "/Z" + NatToString(it) + "/"
  }

  function ZonePaths(nt: nat): (r: seq<string>)
    ensures |r| == nt && forall i :: 0 <= i < nt ==> r[i] == ZonePath(i)
  {
    if nt == 0 then [] else ZonePaths(nt - 1) + [ZonePath(nt - 1)]
  }

  /** The piece the zone loop appends for step `it` is the quoted group path
      and a blank. */
  lemma {:induction false} ZoneEntry(it: nat)
    ensures forall z :: z + "\"/Z" + NatToString(it) + "/\" " == z + Quote(ZonePath(it)) + " "
  {
    var n := NatToString(it);
    forall z
      ensures z + "\"/Z" + n + "/\" " == z + Quote(ZonePath(it)) + " "
    {
      assert Quote(ZonePath(it)) == "\"" + ("/Z" + n + "/") + "\"";
    }
  }

  /** The loop at lines 72-75: `"/Z{it}/" ` for each step, in increasing
      order, or nothing for static data. */
  method BuildZoneString(isTransient: bool, nt: nat) returns (strZones: string)
    ensures strZones == if isTransient then QuotedList(ZonePaths(nt)) else ""
  {
    strZones := "";
    if isTransient {
      var it := 0;
      while it < nt
        invariant it <= nt
        invariant strZones == QuotedList(ZonePaths(it))
      {
        QuotedListSnoc(ZonePaths(it), ZonePath(it));
        ZoneEntry(it);
        strZones := strZones + "\"/Z" + NatToString(it) + "/\" ";
        it := it + 1;
      }
    }
  }

  /** The loop at lines 77-79: `"{vname}" ` for each name, in mapping order. */
  method BuildVariableString(names: seq<string>) returns (strVariable: string)
    ensures strVariable == QuotedList(names)
  {
    strVariable := "";
    var i := 0;
    while i < |names|
      invariant i <= |names|
      invariant strVariable == QuotedList(names[..i])
    {
      QuotedListSnoc(names[..i], names[i]);
      assert names[..i + 1] == names[..i] + [names[i]];
      strVariable := strVariable + "\"" + names[i] + "\" ";
      i := i + 1;
    }
    assert names[..|names|] == names;
  }

  const Header := "#!MC 1410"

  /** The reader settings common to both templates (lines 87-94 and
      109-116), continuation lines of `$!READDATASET`. */
  const LoaderOptions: seq<string> := [
    "  DATASETREADER = 'HDF5 Loader'",
    "  READDATAOPTION = NEW",
    "  RESETSTYLE = YES",
    "  ASSIGNSTRANDIDS = NO",
    "  INITIALPLOTTYPE = CARTESIAN3D",
    "  INITIALPLOTFIRSTZONEONLY = NO",
    "  ADDZONESTOEXISTINGSTRANDS = NO",
    "  VARLOADMODE = BYNAME"
  ]

  /** The axis assignments that follow them (lines 95-97 and 117-119). */
  const AxisAssignments: seq<string> := [
    "$!THREEDAXIS XDETAIL{VARNUM = 1}",
    "$!THREEDAXIS YDETAIL{VARNUM = 2}",
    "$!THREEDAXIS ZDETAIL{VARNUM = 3}"
  ]

  const ReaderLines: seq<string> := LoaderOptions + AxisAssignments

  function ReadDatasetLine(args: string): string {
    "$!READDATASET  '" + args + "'"
  }

  /** The loader arguments of the transient template (lines 82-86): the
      quoted file name repeated `nt` times, the `nt` group paths and the
      variable names. */
  function TransientArgs(filename: string, nt: nat, strZones: string, strVariable: string, nv: nat): string {
    QuotedFileArgs(["-F", NatToString(nt)], filename, nt, ["-D", NatToString(nt)], strZones,
                   ["-G", NatToString(nv)], strVariable, ["-K", "1", "1"], "1")
  }

  /** Quoted words, the quoted file name `nt` times, quoted words, the zone
      list, quoted words, the variable list, a blank and the closing quoted
      words. */
  function QuotedFileArgs(f: seq<string>, filename: string, nt: nat, d: seq<string>, strZones: string,
                          g: seq<string>, strVariable: string, k: seq<string>, last: string): string
  {
    QuotedList(f) + Repeat(Quote(filename) + " ", nt) + QuotedList(d) + strZones
    + QuotedList(g) + strVariable + " " + QuotedList(k) + Quote(last)
  }

  /** The loader arguments of the static template (lines 106-108); the file
      name is NOT quoted here. */
  function StaticArgs(filename: string, strVariable: string, nv: nat): string {
    BareFileArgs(["-F", "1"], filename, ["-D", NatToString(nv)], strVariable, ["-K", "1", "1"], "1")
  }

  /** Quoted words, a bare file name and a blank, quoted words, the variable
      list, a blank and the closing quoted words. */
  function BareFileArgs(f: seq<string>, filename: string, d: seq<string>, strVariable: string,
                        k: seq<string>, last: string): string
  {
    QuotedList(f) + filename + " " + QuotedList(d) + strVariable + " " + QuotedList(k) + Quote(last)
  }

  /** The `;`-terminated settings of the Strand Editor command (lines 100-102). */
  function StrandSettings(nt: nat, tstart: string, dt: string): seq<string> {
    [ "ZoneSet=1-" + NatToString(nt), "MultiZonesPerTime=TRUE", "ZoneGrouping=Time",
      "GroupSize=" + NatToString(nt), "AssignStrands=TRUE", "StrandValue=" + NatToString(nt),
      "AssignSolutionTime=TRUE", "TimeValue=" + tstart, "DeltaValue=" + dt,
      "TimeOption=Automatic", "" ]
  }

  function StrandCommand(nt: nat, tstart: string, dt: string): string {
    Join(StrandSettings(nt, tstart, dt), ';')
  }

  function TransientLines(filename: string, nt: nat, strZones: string, strVariable: string, nv: nat,
                          tstart: string, dt: string): seq<string>
  {
    [Header, ReadDatasetLine(TransientArgs(filename, nt, strZones, strVariable, nv))] + ReaderLines
    + StrandLines(nt, tstart, dt)
  }

  /** The Strand Editor invocation that closes the transient template. */
  function StrandLines(nt: nat, tstart: string, dt: string): seq<string> {
    ["$!EXTENDEDCOMMAND", "   COMMANDPROCESSORID = 'Strand Editor'", CommandLine(nt, tstart, dt)]
  }

  function CommandLine(nt: nat, tstart: string, dt: string): string {
    "COMMAND = '" + StrandCommand(nt, tstart, dt) + "'"
  }

  /** The transient template (lines 83-102); it has no final newline. */
  function TransientMacro(filename: string, nt: nat, strZones: string, strVariable: string, nv: nat,
                          tstart: string, dt: string): string
  {
    Join(TransientLines(filename, nt, strZones, strVariable, nv, tstart, dt), '\n')
  }

  function StaticLines(filename: string, strVariable: string, nv: nat): seq<string> {
    [Header, ReadDatasetLine(StaticArgs(filename, strVariable, nv))] + ReaderLines
  }

  /** The static template (lines 105-119); it ends with a newline. */
  function StaticMacro(filename: string, strVariable: string, nv: nat): string {
    Join(StaticLines(filename, strVariable, nv) + [""], '\n')
  }

  /** A macro line that is a command to Tecplot starts with `$!`. */
  predicate IsCommand(line: string) {
    |line| >= 2 && line[0] == '$' && line[1] == '!'
  }

  /** The command lines of a macro, in order. */
  function Commands(lines: seq<string>): seq<string> {
    if lines == [] then []
    else (if IsCommand(lines[0]) then [lines[0]] else []) + Commands(lines[1..])
  }

  // ---------------------------------------------------------------------
  // Reading the loader arguments back.

  lemma {:induction false} QuoteNatFree(n: nat)
    ensures '"' !in NatToString(n) && ' ' !in NatToString(n) && '\n' !in NatToString(n)
  {
  }

  lemma {:induction false} ZonePathsFree(nt: nat, c: char)
    requires c == '"' || c == '\n'
    ensures Free(ZonePaths(nt), c)
  {
    forall i | 0 <= i < nt ensures c !in ZonePaths(nt)[i] {
      QuoteNatFree(i);
    }
  }

  lemma {:induction false} TokensLastQuote(last: string)
    requires '"' !in last
    ensures Tokens(Quote(last)) == [last]
  {
    var e: string := [];
    assert Quote(last) + e == Quote(last);
    TokensQuote(last, e);
  }

  lemma {:induction false} Regroup(a: string, b: string, c: string)
    ensures a + " " + b + c == a + (" " + (b + c))
  {
  }

  lemma {:induction false} TokensListThenBlank(items: seq<string>, rest: string)
    requires Free(items, '"')
    ensures Tokens(QuotedList(items) + (" " + rest)) == items + Tokens(rest)
  {
    TokensQuotedList(items, " " + rest);
    TokensBlank(rest);
  }

  /** Quoted words, a blank, more quoted words and a last quoted word read
      back as all those words: the shape in which both argument lists end. */
  lemma {:induction false} TokensArgsEnd(items: seq<string>, more: seq<string>, last: string)
    requires Free(items, '"') && Free(more, '"') && '"' !in last
    ensures Tokens(QuotedList(items) + " " + QuotedList(more) + Quote(last)) == items + more + [last]
  {
    Regroup(QuotedList(items), QuotedList(more), Quote(last));
    TokensListThenBlank(items, QuotedList(more) + Quote(last));
    TokensQuotedList(more, Quote(last));
    TokensLastQuote(last);
    assert items + (more + [last]) == items + more + [last];
  }

  lemma OptionWordsFree()
    ensures Free(["-K", "1", "1"], '"') && '"' !in "1"
  {
  }

  lemma {:induction false} FreeAppend(a: seq<string>, b: seq<string>, c: char)
    requires Free(a, c) && Free(b, c)
    ensures Free(a + b, c)
  {
    forall i | 0 <= i < |a + b| ensures c !in (a + b)[i] {
      if i < |a| { assert (a + b)[i] == a[i]; }
      else { assert (a + b)[i] == b[i - |a|]; }
    }
  }

  /** The words before the variable names, as one quoted list. */
  function TransientHead(filename: string, nt: nat, nv: nat): seq<string> {
    ["-F", NatToString(nt)] + Copies(filename, nt) + ["-D", NatToString(nt)] + ZonePaths(nt)
    + ["-G", NatToString(nv)]
  }

  lemma {:induction false} TransientHeadList(filename: string, nt: nat, nv: nat)
    ensures QuotedList(TransientHead(filename, nt, nv)) ==
      QuotedList(["-F", NatToString(nt)]) + Repeat(Quote(filename) + " ", nt)
      + QuotedList(["-D", NatToString(nt)]) + QuotedList(ZonePaths(nt))
      + QuotedList(["-G", NatToString(nv)])
  {
    RepeatQuoted(filename, nt);
    var a := ["-F", NatToString(nt)] + Copies(filename, nt);
    var b := a + ["-D", NatToString(nt)];
    var c := b + ZonePaths(nt);
    QuotedListAppend(["-F", NatToString(nt)], Copies(filename, nt));
    QuotedListAppend(a, ["-D", NatToString(nt)]);
    QuotedListAppend(b, ZonePaths(nt));
    QuotedListAppend(c, ["-G", NatToString(nv)]);
  }

  lemma {:induction false} TransientHeadFree(filename: string, nt: nat, nv: nat)
    requires '"' !in filename
    ensures Free(TransientHead(filename, nt, nv), '"')
  {
    QuoteNatFree(nt);
    QuoteNatFree(nv);
    ZonePathsFree(nt, '"');
    var h := TransientHead(filename, nt, nv);
    forall i | 0 <= i < |h| ensures '"' !in h[i] {
      if i < 2 + nt {
        assert h[i] == (["-F", NatToString(nt)] + Copies(filename, nt))[i];
      } else if i < 4 + nt {
        assert h[i] == ["-D", NatToString(nt)][i - 2 - nt];
      } else if i < 4 + 2 * nt {
        assert h[i] == ZonePaths(nt)[i - 4 - nt];
      } else {
        assert h[i] == ["-G", NatToString(nv)][i - 4 - 2 * nt];
      }
    }
  }

  lemma {:induction false} TransientArgsRead(filename: string, nt: nat, names: seq<string>)
    requires '"' !in filename && Free(names, '"')
    ensures Tokens(TransientArgs(filename, nt, QuotedList(ZonePaths(nt)), QuotedList(names), |names|)) ==
      TransientHead(filename, nt, |names|) + names + ["-K", "1", "1"] + ["1"]
  {
    var head := TransientHead(filename, nt, |names|);
    TransientHeadList(filename, nt, |names|);
    TransientHeadFree(filename, nt, |names|);
    QuotedListAppend(head, names);
    FreeAppend(head, names, '"');
    OptionWordsFree();
    TokensArgsEnd(head + names, ["-K", "1", "1"], "1");
  }

  /** The transient argument list reads back as `-F nt`, the file name `nt`
      times, `-D nt`, the group paths `/Z0/` to `/Z{nt-1}/` in increasing
      order, `-G` and the number of variables, the names in mapping order,
      and `-K 1 1 1`; it holds no other word. */
  lemma {:induction false} TransientArgsTokens(filename: string, nt: nat, names: seq<string>)
    requires '"' !in filename && Free(names, '"')
    ensures Tokens(TransientArgs(filename, nt, QuotedList(ZonePaths(nt)), QuotedList(names), |names|)) ==
      ["-F", NatToString(nt)] + Copies(filename, nt) + ["-D", NatToString(nt)] + ZonePaths(nt)
      + ["-G", NatToString(|names|)] + names + ["-K", "1", "1", "1"]
  {
    TransientArgsRead(filename, nt, names);
    var k: seq<string> := ["-K", "1", "1"];
    assert k + ["1"] == ["-K", "1", "1", "1"];
  }

  lemma {:induction false} TokensListThenBare(f: seq<string>, fn: string, rest: string)
    requires Free(f, '"') && fn != [] && '"' !in fn && ' ' !in fn
    ensures Tokens(QuotedList(f) + (fn + " " + rest)) == f + ([fn] + Tokens(rest))
  {
    TokensQuotedList(f, fn + " " + rest);
    TokensBare(fn, rest);
  }

  lemma {:induction false} BareFileArgsSplit(f: seq<string>, fn: string, d: seq<string>, names: seq<string>,
                          k: seq<string>, last: string)
    ensures BareFileArgs(f, fn, d, QuotedList(names), k, last)
      == QuotedList(f) + (fn + " " + (QuotedList(d + names) + " " + QuotedList(k) + Quote(last)))
  {
    RegroupStatic(QuotedList(f), fn, QuotedList(d), QuotedList(names), QuotedList(k), Quote(last));
    QuotedListAppend(d, names);
  }

  lemma {:induction false} RegroupStatic(f: string, fn: string, d: string, sv: string, k: string, q: string)
    ensures f + fn + " " + d + sv + " " + k + q == f + (fn + " " + (d + sv + " " + k + q))
  {
  }

  lemma {:induction false} RegroupWords(f: seq<string>, w: seq<string>, d: seq<string>, k: seq<string>)
    ensures f + (w + (d + k)) == f + w + d + k
  {
  }

  /** The static argument list with its words left open reads back as those
      words, provided the file name is a single bare word. */
  lemma {:induction false} TokensBareFileArgs(f: seq<string>, fn: string, d: seq<string>, names: seq<string>,
                           k: seq<string>, last: string)
    requires Free(f, '"') && Free(d, '"') && Free(names, '"') && Free(k, '"') && '"' !in last
    requires fn != [] && '"' !in fn && ' ' !in fn
    ensures Tokens(BareFileArgs(f, fn, d, QuotedList(names), k, last)) == f + [fn] + (d + names) + (k + [last])
  {
    var rest := QuotedList(d + names) + " " + QuotedList(k) + Quote(last);
    BareFileArgsSplit(f, fn, d, names, k, last);
    TokensListThenBare(f, fn, rest);
    FreeAppend(d, names, '"');
    TokensArgsEnd(d + names, k, last);
    assert Tokens(rest) == (d + names) + (k + [last]);
    RegroupWords(f, [fn], d + names, k + [last]);
  }

  lemma {:induction false} TokensTwoBare(p: string, q: string, rest: string)
    requires p != [] && '"' !in p && ' ' !in p && q != [] && '"' !in q && ' ' !in q
    ensures Tokens(p + " " + q + " " + rest) == [p, q] + Tokens(rest)
  {
    assert p + " " + q + " " + rest == p + " " + (q + " " + rest);
    TokensBare(p, q + " " + rest);
    TokensBare(q, rest);
  }

  /** The same list with a file name of two bare words around one blank. */
  lemma {:induction false} TokensBareFileArgsBlank(f: seq<string>, p: string, q: string, d: seq<string>, names: seq<string>,
                                k: seq<string>, last: string)
    requires Free(f, '"') && Free(d, '"') && Free(names, '"') && Free(k, '"') && '"' !in last
    requires p != [] && '"' !in p && ' ' !in p && q != [] && '"' !in q && ' ' !in q
    ensures Tokens(BareFileArgs(f, p + " " + q, d, QuotedList(names), k, last)) == f + [p, q] + (d + names) + (k + [last])
  {
    var rest := QuotedList(d + names) + " " + QuotedList(k) + Quote(last);
    BareFileArgsSplit(f, p + " " + q, d, names, k, last);
    TokensListTwoBare(BareFileArgs(f, p + " " + q, d, QuotedList(names), k, last), f, p, q, rest);
    FreeAppend(d, names, '"');
    TokensArgsEnd(d + names, k, last);
    RegroupEnd(f, [p, q], d + names, k, last);
  }

  lemma {:induction false} TokensListTwoBare(s: string, f: seq<string>, p: string, q: string, rest: string)
    requires Free(f, '"') && p != [] && '"' !in p && ' ' !in p && q != [] && '"' !in q && ' ' !in q
    requires s == QuotedList(f) + (p + " " + q + " " + rest)
    ensures Tokens(s) == f + ([p, q] + Tokens(rest))
  {
    TokensQuotedList(f, p + " " + q + " " + rest);
    TokensTwoBare(p, q, rest);
  }

  lemma {:induction false} RegroupEnd(f: seq<string>, w: seq<string>, a: seq<string>, k: seq<string>, last: string)
    ensures f + (w + (a + k + [last])) == f + w + a + (k + [last])
  {
  }

  lemma {:induction false} StaticWordsFree(nv: nat)
    ensures Free(["-F", "1"], '"') && Free(["-D", NatToString(nv)], '"')
  {
    QuoteNatFree(nv);
  }

  /** The static argument list reads back as `-F 1`, the file name, `-D` and
      the number of variables, the names and `-K 1 1 1`, provided the file
      name is a single bare word. */
  lemma {:induction false} StaticArgsTokens(filename: string, names: seq<string>)
    requires filename != [] && '"' !in filename && ' ' !in filename && Free(names, '"')
    ensures Tokens(StaticArgs(filename, QuotedList(names), |names|)) ==
      ["-F", "1"] + [filename] + (["-D", NatToString(|names|)] + names) + (["-K", "1", "1"] + ["1"])
  {
    StaticWordsFree(|names|);
    OptionWordsFree();
    TokensBareFileArgs(["-F", "1"], filename, ["-D", NatToString(|names|)], names, ["-K", "1", "1"], "1");
  }

  /** In the transient argument list the file name is the word at
      positions 2 to `nt + 1`, whatever blanks it holds. */
  lemma {:induction false} TransientArgsFileWords(filename: string, nt: nat, names: seq<string>)
    requires '"' !in filename && Free(names, '"')
    ensures var t := Tokens(TransientArgs(filename, nt, QuotedList(ZonePaths(nt)), QuotedList(names), |names|));
      |t| == 2 * nt + |names| + 10 && forall i :: 2 <= i < nt + 2 ==> t[i] == filename
  {
    TransientArgsRead(filename, nt, names);
    var head := TransientHead(filename, nt, |names|);
    var t := head + names + ["-K", "1", "1"] + ["1"];
    forall i | 2 <= i < nt + 2 ensures t[i] == filename {
      assert t[i] == head[i];
      assert head[i] == (["-F", NatToString(nt)] + Copies(filename, nt))[i];
    }
  }

  /** The static template does not quote the file name: a name with one
      blank in it reads back as two words, where the transient template
      keeps it whole. */
  lemma {:induction false} StaticArgsSplitBlankName(p: string, q: string, names: seq<string>, nt: nat)
    requires p != [] && q != [] && '"' !in p && '"' !in q && ' ' !in p && ' ' !in q && Free(names, '"')
    requires nt > 0
    ensures Tokens(StaticArgs(p + " " + q, QuotedList(names), |names|)) ==
      ["-F", "1"] + [p, q] + (["-D", NatToString(|names|)] + names) + (["-K", "1", "1"] + ["1"])
    ensures var t := Tokens(TransientArgs(p + " " + q, nt, QuotedList(ZonePaths(nt)), QuotedList(names), |names|));
      |t| > 2 && t[2] == p + " " + q
  {
    StaticWordsFree(|names|);
    OptionWordsFree();
    TokensBareFileArgsBlank(["-F", "1"], p, q, ["-D", NatToString(|names|)], names, ["-K", "1", "1"], "1");
    assert '"' !in p + " " + q;
    TransientArgsFileWords(p + " " + q, nt, names);
  }

  // ---------------------------------------------------------------------
  // The lines of the macro and the fields of the Strand Editor command.

  lemma LoaderOptionsFreeA()
    ensures forall i :: 0 <= i < 4 ==> '\n' !in LoaderOptions[i]
  {
  }

  lemma LoaderOptionsFreeB()
    ensures forall i :: 4 <= i < 8 ==> '\n' !in LoaderOptions[i]
  {
  }

  lemma AxisAssignmentsFree()
    ensures Free(AxisAssignments, '\n')
  {
  }

  /** No fixed line of either template holds a newline. */
  lemma ReaderLinesFree()
    ensures Free(ReaderLines, '\n')
  {
    LoaderOptionsFreeA();
    LoaderOptionsFreeB();
    AxisAssignmentsFree();
    forall i | 0 <= i < |ReaderLines| ensures '\n' !in ReaderLines[i] {
      if i >= 8 {
        assert ReaderLines[i] == AxisAssignments[i - 8];
      }
    }
  }

  lemma FixedLinesFree()
    ensures '\n' !in Header && '\n' !in "$!EXTENDEDCOMMAND" && '\n' !in "   COMMANDPROCESSORID = 'Strand Editor'"
  {
  }

  lemma {:induction false} QuotedFileArgsFree(f: seq<string>, filename: string, nt: nat, d: seq<string>, strZones: string,
                           g: seq<string>, strVariable: string, k: seq<string>, last: string, c: char)
    requires c != '"' && c != ' '
    requires Free(f, c) && c !in filename && Free(d, c) && c !in strZones && Free(g, c)
    requires c !in strVariable && Free(k, c) && c !in last
    ensures c !in QuotedFileArgs(f, filename, nt, d, strZones, g, strVariable, k, last)
  {
    RepeatQuoted(filename, nt);
    QuotedListFree(Copies(filename, nt), c);
    QuotedListFree(f, c);
    QuotedListFree(d, c);
    QuotedListFree(g, c);
    QuotedListFree(k, c);
  }

  lemma {:induction false} BareFileArgsFree(f: seq<string>, filename: string, d: seq<string>, strVariable: string,
                         k: seq<string>, last: string, c: char)
    requires c != '"' && c != ' '
    requires Free(f, c) && c !in filename && Free(d, c) && c !in strVariable && Free(k, c) && c !in last
    ensures c !in BareFileArgs(f, filename, d, strVariable, k, last)
  {
    QuotedListFree(f, c);
    QuotedListFree(d, c);
    QuotedListFree(k, c);
  }

  lemma {:induction false} ArgWordsFree(n: nat, v: nat)
    ensures Free(["-F", NatToString(n)], '\n') && Free(["-D", NatToString(n)], '\n')
    ensures Free(["-G", NatToString(v)], '\n') && Free(["-D", NatToString(v)], '\n')
    ensures Free(["-F", "1"], '\n') && Free(["-K", "1", "1"], '\n') && '\n' !in "1"
  {
    QuoteNatFree(n);
    QuoteNatFree(v);
  }

  lemma {:induction false} TransientArgsFree(filename: string, nt: nat, names: seq<string>)
    requires '\n' !in filename && Free(names, '\n')
    ensures '\n' !in TransientArgs(filename, nt, QuotedList(ZonePaths(nt)), QuotedList(names), |names|)
  {
    ArgWordsFree(nt, |names|);
    ZonePathsFree(nt, '\n');
    QuotedListFree(ZonePaths(nt), '\n');
    QuotedListFree(names, '\n');
    QuotedFileArgsFree(["-F", NatToString(nt)], filename, nt, ["-D", NatToString(nt)], QuotedList(ZonePaths(nt)),
                       ["-G", NatToString(|names|)], QuotedList(names), ["-K", "1", "1"], "1", '\n');
  }

  lemma {:induction false} StaticArgsFree(filename: string, names: seq<string>)
    requires '\n' !in filename && Free(names, '\n')
    ensures '\n' !in StaticArgs(filename, QuotedList(names), |names|)
  {
    ArgWordsFree(0, |names|);
    QuotedListFree(names, '\n');
    BareFileArgsFree(["-F", "1"], filename, ["-D", NatToString(|names|)], QuotedList(names), ["-K", "1", "1"], "1", '\n');
  }

  lemma FramingFree()
    ensures '\n' !in "$!READDATASET  '" && '\n' !in "'" && '\n' !in "COMMAND = '"
  {
  }

  lemma {:induction false} StrandWordsFreeA(c: char)
    requires c == '\n' || c == ';'
    ensures c !in "ZoneSet=1-" && c !in "MultiZonesPerTime=TRUE" && c !in "ZoneGrouping=Time"
  {
  }

  lemma {:induction false} StrandWordsFreeB(c: char)
    requires c == '\n' || c == ';'
    ensures c !in "GroupSize=" && c !in "AssignStrands=TRUE" && c !in "StrandValue="
  {
  }

  lemma {:induction false} StrandWordsFreeC(c: char)
    requires c == '\n' || c == ';'
    ensures c !in "AssignSolutionTime=TRUE" && c !in "TimeValue=" && c !in "DeltaValue=" && c !in "TimeOption=Automatic"
  {
  }

  lemma {:induction false} StrandSettingsFree(nt: nat, tstart: string, dt: string, c: char)
    requires (c == '\n' || c == ';') && c !in tstart && c !in dt
    ensures Free(StrandSettings(nt, tstart, dt), c)
  {
    QuoteNatFree(nt);
    assert c !in NatToString(nt) by {
      assert forall d :: d in NatToString(nt) ==> IsDigit(d);
    }
    StrandWordsFreeA(c);
    StrandWordsFreeB(c);
    StrandWordsFreeC(c);
  }

  lemma {:induction false} LinesFree(h: string, rd: string, reader: seq<string>, extra: seq<string>, c: char)
    requires c !in h && c !in rd && Free(reader, c) && Free(extra, c)
    ensures Free([h, rd] + reader + extra, c)
  {
    FreeAppend([h, rd], reader, c);
    FreeAppend([h, rd] + reader, extra, c);
  }

  lemma {:induction false} StrandLinesFree(nt: nat, tstart: string, dt: string)
    requires '\n' !in tstart && '\n' !in dt
    ensures Free(StrandLines(nt, tstart, dt), '\n')
  {
    FixedLinesFree();
    FramingFree();
    StrandSettingsFree(nt, tstart, dt, '\n');
    JoinFree(StrandSettings(nt, tstart, dt), ';', '\n');
  }

  lemma EmptyLineFree()
    ensures Free([""], '\n')
  {
  }

  lemma {:induction false} ReadDatasetLineFree(args: string)
    requires '\n' !in args
    ensures '\n' !in ReadDatasetLine(args)
  {
    FramingFree();
  }

  /** The transient macro has sixteen lines: the header, the data set
      reader with its arguments, the eleven reader settings and axis
      assignments, and the Strand Editor invocation, with no newline after
      its last line. */
  lemma {:induction false} TransientMacroLines(filename: string, nt: nat, names: seq<string>, tstart: string, dt: string)
    requires '\n' !in filename && Free(names, '\n') && '\n' !in tstart && '\n' !in dt
    ensures Split(TransientMacro(filename, nt, QuotedList(ZonePaths(nt)), QuotedList(names), |names|, tstart, dt), '\n')
         == [Header, ReadDatasetLine(TransientArgs(filename, nt, QuotedList(ZonePaths(nt)), QuotedList(names), |names|))]
            + ReaderLines + StrandLines(nt, tstart, dt)
  {
    var rd := ReadDatasetLine(TransientArgs(filename, nt, QuotedList(ZonePaths(nt)), QuotedList(names), |names|));
    TransientArgsFree(filename, nt, names);
    ReadDatasetLineFree(TransientArgs(filename, nt, QuotedList(ZonePaths(nt)), QuotedList(names), |names|));
    FixedLinesFree();
    ReaderLinesFree();
    StrandLinesFree(nt, tstart, dt);
    LinesFree(Header, rd, ReaderLines, StrandLines(nt, tstart, dt), '\n');
    SplitJoin([Header, rd] + ReaderLines + StrandLines(nt, tstart, dt), '\n');
  }

  lemma ReaderLinesLength()
    ensures |ReaderLines| == 11
  {
  }

  /** Where the header, the reader line and the closing command sit among
      the sixteen lines of the transient template. */
  lemma {:induction false} TransientLinesShape(h: string, rd: string, reader: seq<string>, strand: seq<string>)
    requires |reader| == 11 && |strand| == 3
    ensures var l := [h, rd] + reader + strand;
      |l| == 16 && l[0] == h && l[1] == rd && l[15] == strand[2]
  {
  }

  /** The static macro has the header, the data set reader and the same
      eleven settings, and ends with a newline (its last piece is empty). */
  lemma {:induction false} StaticMacroLines(filename: string, names: seq<string>)
    requires '\n' !in filename && Free(names, '\n')
    ensures Split(StaticMacro(filename, QuotedList(names), |names|), '\n')
         == [Header, ReadDatasetLine(StaticArgs(filename, QuotedList(names), |names|))] + ReaderLines + [""]
  {
    var rd := ReadDatasetLine(StaticArgs(filename, QuotedList(names), |names|));
    StaticArgsFree(filename, names);
    ReadDatasetLineFree(StaticArgs(filename, QuotedList(names), |names|));
    FixedLinesFree();
    ReaderLinesFree();
    EmptyLineFree();
    LinesFree(Header, rd, ReaderLines, [""], '\n');
    SplitJoin([Header, rd] + ReaderLines + [""], '\n');
  }

  lemma {:induction false} JoinLastEmpty(parts: seq<string>, sep: char)
    requires |parts| >= 2 && parts[|parts| - 1] == ""
    ensures var j := Join(parts, sep); |j| > 0 && j[|j| - 1] == sep
    decreases |parts|
  {
    if |parts| == 2 {
      assert parts[1..] == [""];
      assert Join(parts, sep) == parts[0] + [sep] + "";
    } else {
      JoinLastEmpty(parts[1..], sep);
      assert Join(parts, sep) == parts[0] + [sep] + Join(parts[1..], sep);
    }
  }

  /** The Strand Editor command splits at `;` into its eleven settings and
      ends with `;`: the zones from 1 to `nt`, grouped `nt` to a strand, and
      solution times from `tstart` in steps of `dt`. */
  lemma {:induction false} StrandCommandFields(nt: nat, tstart: string, dt: string)
    requires ';' !in tstart && ';' !in dt
    ensures Split(StrandCommand(nt, tstart, dt), ';') == StrandSettings(nt, tstart, dt)
    ensures var c := StrandCommand(nt, tstart, dt); |c| > 0 && c[|c| - 1] == ';'
  {
    StrandSettingsFree(nt, tstart, dt, ';');
    SplitJoin(StrandSettings(nt, tstart, dt), ';');
    JoinLastEmpty(StrandSettings(nt, tstart, dt), ';');
  }

  lemma {:induction false} CommandsAppend(a: seq<string>, b: seq<string>)
    ensures Commands(a + b) == Commands(a) + Commands(b)
    decreases |a|
  {
    if a == [] {
      assert a + b == b;
    } else {
      assert (a + b)[1..] == a[1..] + b;
      CommandsAppend(a[1..], b);
    }
  }

  lemma {:induction false} CommandsNone(lines: seq<string>)
    requires forall i :: 0 <= i < |lines| ==> !IsCommand(lines[i])
    ensures Commands(lines) == []
  {
    if lines != [] {
      CommandsNone(lines[1..]);
    }
  }

  lemma {:induction false} CommandsAll(lines: seq<string>)
    requires forall i :: 0 <= i < |lines| ==> IsCommand(lines[i])
    ensures Commands(lines) == lines
  {
    if lines != [] {
      CommandsAll(lines[1..]);
    }
  }

  lemma {:induction false} LinesCommands(h: string, rd: string, reader: seq<string>, extra: seq<string>)
    requires !IsCommand(h) && IsCommand(rd)
    ensures Commands([h, rd] + reader + extra) == [rd] + Commands(reader) + Commands(extra)
  {
    CommandsAppend([h, rd], reader);
    CommandsAppend([h, rd] + reader, extra);
    assert [h, rd][1..] == [rd];
    assert Commands([rd]) == [rd] + Commands([]);
  }

  lemma ReaderCommands()
    ensures Commands(ReaderLines) == AxisAssignments
  {
    LoaderOptionsNotCommands();
    AxisAssignmentsCommands();
    CommandsSplit(LoaderOptions, AxisAssignments);
  }

  lemma LoaderOptionsNotCommands()
    ensures forall i :: 0 <= i < |LoaderOptions| ==> !IsCommand(LoaderOptions[i])
  {
    assert forall i :: 0 <= i < 8 ==> LoaderOptions[i][0] == ' ';
  }

  lemma AxisAssignmentsCommands()
    ensures forall i :: 0 <= i < |AxisAssignments| ==> IsCommand(AxisAssignments[i])
  {
  }

  lemma {:induction false} CommandsSplit(a: seq<string>, b: seq<string>)
    requires forall i :: 0 <= i < |a| ==> !IsCommand(a[i])
    requires forall i :: 0 <= i < |b| ==> IsCommand(b[i])
    ensures Commands(a + b) == b
  {
    CommandsNone(a);
    CommandsAll(b);
    CommandsAppend(a, b);
  }

  lemma {:induction false} StrandCommands(nt: nat, tstart: string, dt: string)
    ensures Commands(StrandLines(nt, tstart, dt)) == ["$!EXTENDEDCOMMAND"]
  {
    var l := StrandLines(nt, tstart, dt);
    assert IsCommand(l[0]);
    assert l[1][0] == ' ' && l[2][0] == 'C';
    CommandsNone(l[1..]);
    CommandsAppend([l[0]], l[1..]);
    assert [l[0]] + l[1..] == l;
  }

  lemma HeaderNotCommand()
    ensures !IsCommand(Header)
  {
    assert Header[0] == '#';
  }

  lemma {:induction false} ReadDatasetIsCommand(args: string)
    ensures IsCommand(ReadDatasetLine(args))
  {
  }

  lemma {:induction false} NoTrailingCommand(x: seq<string>)
    ensures x + Commands([""]) == x
  {
    CommandsNone([""]);
  }

  /** The static macro's commands: it reads the data set and assigns the
      three axes, and invokes no Strand Editor. */
  lemma {:induction false} StaticMacroCommands(filename: string, strVariable: string, nv: nat)
    ensures Commands(StaticLines(filename, strVariable, nv) + [""]) ==
      [ReadDatasetLine(StaticArgs(filename, strVariable, nv))] + AxisAssignments
  {
    var s := ReadDatasetLine(StaticArgs(filename, strVariable, nv));
    HeaderNotCommand();
    ReadDatasetIsCommand(StaticArgs(filename, strVariable, nv));
    LinesCommands(Header, s, ReaderLines, [""]);
    NoTrailingCommand([s] + Commands(ReaderLines));
    ReaderCommands();
  }

  /** The transient macro's commands: the same, followed by the Strand
      Editor invocation. */
  lemma {:induction false} TransientMacroCommands(filename: string, nt: nat, strZones: string, strVariable: string, nv: nat,
                               tstart: string, dt: string)
    ensures Commands(TransientLines(filename, nt, strZones, strVariable, nv, tstart, dt)) ==
      [ReadDatasetLine(TransientArgs(filename, nt, strZones, strVariable, nv))] + AxisAssignments
      + ["$!EXTENDEDCOMMAND"]
  {
    var t := ReadDatasetLine(TransientArgs(filename, nt, strZones, strVariable, nv));
    HeaderNotCommand();
    ReadDatasetIsCommand(TransientArgs(filename, nt, strZones, strVariable, nv));
    LinesCommands(Header, t, ReaderLines, StrandLines(nt, tstart, dt));
    StrandCommands(nt, tstart, dt);
    ReaderCommands();
  }
}
