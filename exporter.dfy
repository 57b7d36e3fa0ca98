/** `create_hdf5` as a whole (tecplot_tools/hdf.py:8-125): the checks, the
    write phase, the macro text and the two paths it returns, in the order in
    which the function reaches them. */
module Exporter {
  import opened Outcomes
  import opened Arrays
  import opened Text
  import opened Paths
  import opened Layout
  import opened Macro
  import opened Decimal

  /** The macro text that lines 81-119 format: the transient template with
      its `nt`, zone list and strand settings, or the static one. */
  datatype Template =
    | TransientTemplate(filename: string, nt: nat, strZones: string, strVariable: string, nv: nat,
                        tstart: string, dt: string)
    | StaticTemplate(filename: string, strVariable: string, nv: nat)
  {
    /** The text `macro_str` holds. */
    function Text(): string {
      match this
      case TransientTemplate(filename, nt, strZones, strVariable, nv, tstart, dt) =>
        TransientMacro(filename, nt, strZones, strVariable, nv, tstart, dt)
      case StaticTemplate(filename, strVariable, nv) =>
        StaticMacro(filename, strVariable, nv)
    }
  }

  /** The macro file that `open(macro_filename, 'w')` receives: its path, and
      the template whose `Text()` is written into it. */
  datatype MacroFile = MacroFile(path: string, template: Template)

  /** The container path and the macro path that the function returns. */
  datatype Returned = Returned(container: string, macro: string)

  /** What one call leaves behind: whether the container was opened for
      writing (which creates or truncates it), the datasets written into it,
      the macro file written, and the returned paths or the exception raised. */
  datatype Export = Export(containerOpened: bool, datasets: seq<Dataset>, macroFile: Option<MacroFile>,
                           outcome: Result<Returned>)

  /** `list(variables.keys())` (line 57). */
  function Names(vars: seq<Var>): seq<string> {
    seq(|vars|, i requires 0 <= i < |vars| => vars[i].name)
  }

  /** The template filled in at lines 72-119: the zone list and the variable
      list of the two loops, with the transient template when a time axis is
      given and the static one otherwise. */
  function MacroTemplate(filename: string, vars: seq<Var>, nt: Option<nat>, tstart: string, dt: string): Template {
    var strVariable := QuotedList(Names(vars));
    if nt.Some? then TransientTemplate(filename, nt.value, QuotedList(ZonePaths(nt.value)), strVariable, |vars|, tstart, dt)
    else StaticTemplate(filename, strVariable, |vars|)
  }

  /** The whole call. `filename` is the absolute path of the container;
      `taxis` is None for static data; `tstart` and `dt` are the text that
      their formatting produces. */
  function ExportSpec(filename: string, vars: seq<Var>, taxis: Option<int>, tstart: string, dt: string,
                      writeMacro: bool): Export
  {
    if |vars| == 0 then Export(false, [], None, Err(EmptyVariables))
    else
      var top := MaxRank(vars);
      var steps := StepCount(vars, taxis);
      if steps.Err? then Export(false, [], None, Err(steps.error))
      else if top > 4 then Export(false, [], None, Err(RankTooHigh(top)))
      else
        var nt := if steps.value.Some? then steps.value.value else 0;
        var w := Execute(Attempts(vars, taxis, nt));
        if w.failure.Some? then Export(true, w.written, None, Err(w.failure.value))
        else if !writeMacro then Export(true, w.written, None, Err(MacroPathUnbound))
        else
          var path := MacroPath(filename);
          Export(true, w.written, Some(MacroFile(path, MacroTemplate(filename, vars, steps.value, tstart, dt))),
                 Ok(Returned(filename, path)))
  }

  /** The transient axis, once accepted for the maximum rank and with the
      rank rule passed, is accepted for a 4-D array as well. */
  lemma {:induction false} AxisFitsFourD(taxis: int, top: nat)
    requires ValidAxis(taxis, top) && top <= 4
    ensures ValidAxis(taxis, 4)
  {
  }

  method CreateHdf5(filename: string, vars: seq<Var>, taxis: Option<int>, tstart: string, dt: string,
                    writeMacro: bool) returns (e: Export)
    ensures e == ExportSpec(filename, vars, taxis, tstart, dt, writeMacro)
  {
    if |vars| == 0 {
      return Export(false, [], None, Err(EmptyVariables));
    }
    var maxRank := MaxRank(vars);
    var steps := SelectSteps(vars, maxRank, taxis);
    if steps.Err? {
      return Export(false, [], None, Err(steps.error));
    }
    if maxRank > 4 {
      return Export(false, [], None, Err(RankTooHigh(maxRank)));
    }
    if taxis.Some? {
      AxisFitsFourD(taxis.value, maxRank);
    }
    var nt := if steps.value.Some? then steps.value.value else 0;
    var w := WriteDatasets(vars, taxis, nt);
    if w.failure.Some? {
      return Export(true, w.written, None, Err(w.failure.value));
    }
    var strZones := BuildZoneString(taxis.Some?, nt);
    var strVariable := BuildVariableString(Names(vars));
    var template;
    if taxis.Some? {
      template := TransientTemplate(filename, nt, strZones, strVariable, |vars|, tstart, dt);
    } else {
      template := StaticTemplate(filename, strVariable, |vars|);
    }
    if !writeMacro {
      return Export(true, w.written, None, Err(MacroPathUnbound));
    }
    var path := MacroPath(filename);
    e := Export(true, w.written, Some(MacroFile(path, template)), Ok(Returned(filename, path)));
  }

  // ---------------------------------------------------------------------
  // Properties of the whole call.

  /** An empty mapping fails before anything is opened. */
  lemma {:induction false} EmptyMappingFails(filename: string, taxis: Option<int>, tstart: string, dt: string, writeMacro: bool)
    ensures ExportSpec(filename, [], taxis, tstart, dt, writeMacro) == Export(false, [], None, Err(EmptyVariables))
  {
  }

  /** Rank rule: above rank 4 the call fails without opening the container,
      writing a dataset or a macro; the error is the rank error, unless the
      lookup of the time axis, which comes first, already failed. */
  lemma {:induction false} RankAboveFourFails(filename: string, vars: seq<Var>, taxis: Option<int>, tstart: string, dt: string,
                           writeMacro: bool)
    requires |vars| > 0 && MaxRank(vars) > 4
    ensures var e := ExportSpec(filename, vars, taxis, tstart, dt, writeMacro);
      !e.containerOpened && e.datasets == [] && e.macroFile.None? &&
      e.outcome == Err(if taxis.Some? && !ValidAxis(taxis.value, MaxRank(vars))
                       then TimeAxisOutOfRange(taxis.value) else RankTooHigh(MaxRank(vars)))
  {
  }

  /** Anything written at all means the rank rule passed. */
  lemma {:induction false} WritesImplyRankAtMostFour(filename: string, vars: seq<Var>, taxis: Option<int>, tstart: string, dt: string,
                                  writeMacro: bool)
    requires ExportSpec(filename, vars, taxis, tstart, dt, writeMacro).containerOpened
    ensures |vars| > 0 && MaxRank(vars) <= 4
    ensures taxis.Some? ==> ValidAxis(taxis.value, MaxRank(vars))
  {
  }

  /** When every 4-D variable has the same extent along the time axis, the
      transient writes never run past the end of a variable. */
  lemma {:induction false} UniformStepsCover(vars: seq<Var>, taxis: int)
    requires |vars| > 0 && MaxRank(vars) <= 4 && ValidAxis(taxis, MaxRank(vars))
    requires forall i, j :: 0 <= i < |vars| && 0 <= j < |vars| && vars[i].Rank() == 4 && vars[j].Rank() == 4 ==>
      vars[i].shape[NormalizeAxis(taxis, 4)] == vars[j].shape[NormalizeAxis(taxis, 4)]
    ensures CoversSteps(vars, NormalizeAxis(taxis, 4), Steps(vars, taxis))
  {
    var top := MaxRank(vars);
    var last := LastOfRank(vars, top);
    forall j | 0 <= j < |vars| && vars[j].Rank() == 4
      ensures Steps(vars, taxis) <= vars[j].shape[NormalizeAxis(taxis, 4)]
    {
      assert top == 4;
    }
  }

  /** Transient data below rank 4 is never sliced, so no write can fail. */
  lemma {:induction false} LowRankCovers(vars: seq<Var>, axis: nat, nt: nat)
    requires |vars| > 0 && MaxRank(vars) < 4 && axis < 4
    ensures CoversSteps(vars, axis, nt)
  {
  }

  /** The transient layout of a whole call: the container holds `nt`
      groups of `|vars|` datasets, step-major, where `nt` is the step count
      above; variable `j` of step `it` is stored under `Z{it}/{name}`, sliced
      at `it` exactly when it is 4-D and whole otherwise; the call then
      returns the paths exactly when a macro is wanted. */
  lemma {:induction false} TransientExport(filename: string, vars: seq<Var>, taxis: int, tstart: string, dt: string,
                        writeMacro: bool, it: nat, j: nat)
    requires |vars| > 0 && MaxRank(vars) <= 4 && ValidAxis(taxis, MaxRank(vars))
    requires CoversSteps(vars, NormalizeAxis(taxis, 4), Steps(vars, taxis))
    requires it < Steps(vars, taxis) && j < |vars|
    ensures var e := ExportSpec(filename, vars, Some(taxis), tstart, dt, writeMacro);
      var nt := Steps(vars, taxis);
      && e.containerOpened
      && |e.datasets| == nt * |vars|
      && Position(it, |vars|, j) < |e.datasets|
      && var d := e.datasets[Position(it, |vars|, j)];
      && d.key == GroupKey(it, vars[j].name)
      && (d.slice.Some? <==> vars[j].Rank() == 4)
      && (d.slice.Some? ==> d.slice.value == it && d.shape == RemoveAxis(vars[j].shape, NormalizeAxis(taxis, 4)))
      && (d.slice.None? ==> d.shape == vars[j].shape)
      && (e.outcome.Ok? <==> writeMacro)
  {
    AxisFitsFourD(taxis, MaxRank(vars));
    TransientLayout(vars, NormalizeAxis(taxis, 4), Steps(vars, taxis), it, j);
  }

  /** The static layout of a whole call: one dataset per variable, in
      mapping order, keyed by its name and holding the whole array. */
  lemma {:induction false} StaticExport(filename: string, vars: seq<Var>, tstart: string, dt: string, writeMacro: bool)
    requires |vars| > 0 && MaxRank(vars) <= 4
    requires forall j :: 0 <= j < |vars| ==> vars[j].Rank() > 0
    ensures var e := ExportSpec(filename, vars, None, tstart, dt, writeMacro);
      && e.containerOpened
      && e.datasets == seq(|vars|, j requires 0 <= j < |vars| => Dataset(vars[j].name, vars[j].name, None, vars[j].shape))
      && (e.outcome.Ok? <==> writeMacro)
  {
    StaticLayout(vars);
  }

  /** Transient data that passes the checks: the container is opened, and the
      call returns exactly when a macro is wanted and every 4-D variable has
      as many steps as the step count; otherwise no macro is written. */
  lemma {:induction false} TransientOutcome(filename: string, vars: seq<Var>, taxis: int, tstart: string, dt: string,
                                            writeMacro: bool)
    requires |vars| > 0 && MaxRank(vars) <= 4 && ValidAxis(taxis, MaxRank(vars))
    ensures var e := ExportSpec(filename, vars, Some(taxis), tstart, dt, writeMacro);
      && e.containerOpened
      && (e.outcome.Ok? <==> writeMacro && CoversSteps(vars, NormalizeAxis(taxis, 4), Steps(vars, taxis)))
      && (e.macroFile.Some? <==> e.outcome.Ok?)
  {
    AxisFitsFourD(taxis, MaxRank(vars));
    TransientSucceedsIffCovers(vars, NormalizeAxis(taxis, 4), Steps(vars, taxis));
  }

  /** Static data that passes the rank rule: the container is opened, and the
      call returns exactly when a macro is wanted and no variable is 0-d. */
  lemma {:induction false} StaticOutcome(filename: string, vars: seq<Var>, tstart: string, dt: string, writeMacro: bool)
    requires |vars| > 0 && MaxRank(vars) <= 4
    ensures var e := ExportSpec(filename, vars, None, tstart, dt, writeMacro);
      && e.containerOpened
      && (e.outcome.Ok? <==> writeMacro && forall j :: 0 <= j < |vars| ==> vars[j].Rank() > 0)
      && (e.macroFile.Some? <==> e.outcome.Ok?)
  {
    StaticSucceedsIffNoScalar(vars);
  }

  /** Without a macro the call still writes every dataset, and then fails
      on the unbound macro path instead of returning. */
  lemma {:induction false} NoMacroStillWrites(filename: string, vars: seq<Var>, taxis: Option<int>, tstart: string, dt: string)
    ensures var off := ExportSpec(filename, vars, taxis, tstart, dt, false);
      var on := ExportSpec(filename, vars, taxis, tstart, dt, true);
      && off.macroFile.None? && off.outcome.Err?
      && off.containerOpened == on.containerOpened && off.datasets == on.datasets
      && (on.outcome.Ok? ==> off.outcome == Err(MacroPathUnbound))
  {
  }

  /** A call that returns has written the macro to the path derived from
      the container's, and returns that path beside the container's. */
  lemma {:induction false} ReturnedPaths(filename: string, vars: seq<Var>, taxis: Option<int>, tstart: string, dt: string,
                      writeMacro: bool)
    requires ExportSpec(filename, vars, taxis, tstart, dt, writeMacro).outcome.Ok?
    ensures var e := ExportSpec(filename, vars, taxis, tstart, dt, writeMacro);
      && writeMacro && e.containerOpened
      && e.outcome.value == Returned(filename, MacroPath(filename))
      && e.macroFile.Some? && e.macroFile.value.path == MacroPath(filename)
      && e.macroFile.value.template == MacroTemplate(filename, vars, StepCount(vars, taxis).value, tstart, dt)
  {
  }

  /** A container named `*.mcr` is overwritten by its own macro. */
  lemma {:induction false} McrContainerOverwritten(filename: string, vars: seq<Var>, taxis: Option<int>, tstart: string, dt: string)
    requires Suffix(filename) == ".mcr"
    requires ExportSpec(filename, vars, taxis, tstart, dt, true).outcome.Ok?
    ensures var e := ExportSpec(filename, vars, taxis, tstart, dt, true);
      e.macroFile.Some? && e.macroFile.value.path == filename
  {
    ReturnedPaths(filename, vars, taxis, tstart, dt, true);
    MacroPathOfMcrContainer(filename);
  }

  /** The transient macro of a call: sixteen lines, the second reading data
      with `-F nt`, the file name `nt` times, `-D nt`, the `nt` group paths,
      `-G` and the number of variables, and the names. */
  lemma {:induction false} TransientMacroText(filename: string, vars: seq<Var>, nt: nat, tstart: string, dt: string)
    requires '"' !in filename && '\n' !in filename && '\n' !in tstart && '\n' !in dt
    requires Free(Names(vars), '"') && Free(Names(vars), '\n')
    ensures var lines := Split(MacroTemplate(filename, vars, Some(nt), tstart, dt).Text(), '\n');
      var args := TransientArgs(filename, nt, QuotedList(ZonePaths(nt)), QuotedList(Names(vars)), |vars|);
      && |lines| == 16 && lines[0] == Header && lines[1] == ReadDatasetLine(args)
      && lines[15] == CommandLine(nt, tstart, dt)
      && Tokens(args) == ["-F", NatToString(nt)] + Copies(filename, nt) + ["-D", NatToString(nt)] + ZonePaths(nt)
                         + ["-G", NatToString(|vars|)] + Names(vars) + ["-K", "1", "1", "1"]
  {
    var args := TransientArgs(filename, nt, QuotedList(ZonePaths(nt)), QuotedList(Names(vars)), |vars|);
    TransientMacroLines(filename, nt, Names(vars), tstart, dt);
    ReaderLinesLength();
    TransientLinesShape(Header, ReadDatasetLine(args), ReaderLines, StrandLines(nt, tstart, dt));
    TransientArgsTokens(filename, nt, Names(vars));
  }

  /** The static macro of a call: the header, the data set reader line, the
      eleven settings, and a final newline. */
  lemma {:induction false} StaticMacroText(filename: string, vars: seq<Var>, tstart: string, dt: string)
    requires '\n' !in filename && Free(Names(vars), '\n')
    ensures Split(MacroTemplate(filename, vars, None, tstart, dt).Text(), '\n')
      == [Header, ReadDatasetLine(StaticArgs(filename, QuotedList(Names(vars)), |vars|))] + ReaderLines + [""]
  {
    StaticMacroLines(filename, Names(vars));
  }
}
