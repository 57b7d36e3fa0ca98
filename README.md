# create_hdf5 of tecplot_tools, modelled in Dafny

`create_hdf5(filename, variables, taxis, tstart, dt, write_macro)` stores a
mapping of named numpy arrays in an HDF5 container that Tecplot can load,
and writes a Tecplot macro beside it. For transient data it makes one
group `Z{it}` per time step, with one dataset per variable. A 4-D variable
is sliced at step `it` along the time axis; any other variable is stored
whole in every group. For static data it makes one dataset per variable.

The macro loads the container with the HDF5 loader. It lists:

- the variables by name;
- for transient data, the file name once per step and the group paths;
- for transient data, a Strand Editor command that groups the zones by
  time, with the given start time and step.

The model follows the function through its stages, in the order the code
takes them:

- **Checks** (`Arrays`): the maximum rank, the step count `nt` with its
  IndexError, and then the rank rule.
- **Write phase** (`Layout`): every `create_dataset` call the nested loops
  attempt, in order. The first exception ends the phase, and the writes
  before it stay in the file.
- **Macro text** (`Macro`, with `Text` and `Decimal`): the zone list and
  the variable list built by loops, and the two templates as lists of lines
  joined by newlines. A reference tokenizer reads the loader's argument
  list back, so the lemmas can state which words the loader gets.
- **Macro path** (`Paths`): `pathlib`'s `suffix` and Python's
  `str.replace`, which replaces every occurrence, not only the one at the
  end.
- **The whole call** (`Exporter`): `ExportSpec` describes one call. It
  says whether the container was opened, which datasets were written,
  which macro file was written, and what was returned or raised.
  `CreateHdf5` runs the loops and is proved equal to it.

Each loop of the source is a method with loop invariants, proved equal to a
specification function; the lemmas are about those functions. Errors are
values of `Outcomes.Error`, one constructor for each way the modelled code
can raise.

Some behaviours of the code are easy to miss, and the model keeps them:

- **Which variables are sliced.** Slicing is keyed on `ndim == 4`
  (line 63), not on the maximum rank. Transient data whose maximum rank is
  3 or less is therefore stored whole in every group.
- **Order of the checks.** The rank rule comes after the loop that reads
  `v.shape[taxis]` (lines 47-54). An out-of-range time axis therefore
  raises IndexError even when the rank is above 4.
- **`write_macro=False`.** The datasets are still written, and then
  `return` raises UnboundLocalError, because `macro_filename` was never
  bound (line 125).
- **Changing the suffix.** `str.replace` rewrites every occurrence of the
  suffix in the whole path, directories included (line 122). With no
  suffix it inserts `.mcr` before every character and after the last one.
- **The suffix rule.** `Paths.Suffix` follows `PurePath.suffix` as it is up
  to Python 3.13: the last dot of the name counts only when it is neither
  the name's first nor its last character. Python 3.14 also takes a
  trailing dot as a suffix; that rule is not modelled.
- **0-d arrays.** Transient data accepts a 0-d array, which is stored
  whole. Static data fails on it, at `data[:]` (line 70).

## Model

| member | source | states |
|---|---|---|
| Decimal.NatToString | tecplot_tools/hdf.py:75 | the rendering of a step number is a non-empty string of digits that starts with `0` only for 0 |
| Decimal.ParseNatToString | tecplot_tools/hdf.py:75 | reading the rendered digits back gives the number |
| Decimal.NatToStringInjective | tecplot_tools/hdf.py:65 | different step numbers render differently |
| Text.QuotedList | tecplot_tools/hdf.py:72-79 | the text the zone and variable loops build: every item between double quotes and followed by one blank, in order |
| Text.QuotedListAppend | tecplot_tools/hdf.py:77-79 | the quoted list of a concatenation is the concatenation of the quoted lists |
| Text.QuotedListSnoc | tecplot_tools/hdf.py:72-79 | appending one item appends `"item" ` |
| Text.Repeat | tecplot_tools/hdf.py:82 | `s * n` is `n` times as long as `s` |
| Text.RepeatQuoted | tecplot_tools/hdf.py:82 | `'"f" ' * nt` is the quoted list of `nt` copies of `f` |
| Text.Split | tecplot_tools/hdf.py:83-119 | splitting at newlines gives at least one line |
| Text.JoinFree | tecplot_tools/hdf.py:83-119 | a character that is neither the separator nor in any part is absent from the join |
| Text.QuotedListFree | tecplot_tools/hdf.py:72-79 | a character other than `"` and blank, absent from the items, is absent from their quoted list |
| Text.SplitJoin | tecplot_tools/hdf.py:83-119 | splitting the joined lines at the separator gives the lines back when none holds it |
| Text.TokensQuote | tecplot_tools/hdf.py:84-86 | a quoted word without quotes reads back as that word |
| Text.TokensBare | tecplot_tools/hdf.py:106 | a bare word without blanks or quotes, followed by a blank, reads back as that word |
| Text.TokensQuotedList | tecplot_tools/hdf.py:84-86 | a quoted list reads back as its items |
| Paths.Suffix | tecplot_tools/hdf.py:122 | `PurePath.suffix`: the name from its last dot on when that dot is neither the first nor the last character of the name, else empty |
| Paths.ReplaceAll | tecplot_tools/hdf.py:122 | `str.replace`: every non-overlapping occurrence, scanned left to right, is replaced; an empty pattern inserts the replacement at every position |
| Paths.MacroPath | tecplot_tools/hdf.py:121-122 | the macro path: the container path with every occurrence of its suffix replaced by `.mcr` |
| Paths.RFind | tecplot_tools/hdf.py:122 | the index of the last occurrence, or -1 when there is none |
| Paths.BaseName | tecplot_tools/hdf.py:122 | the last path component: free of `/`, a tail of the path, preceded by `/` when shorter |
| Paths.SuffixShape | tecplot_tools/hdf.py:122 | a non-empty suffix is a dot and at least one character, has no other dot and no slash, and ends the path after a character of the name |
| Paths.SuffixOfName | tecplot_tools/hdf.py:122 | conversely, a name made of a non-empty dot-free stem and an extension (a dot, at least one more character, no further dot, no slash) has that extension as suffix |
| Paths.MacroPathOfName | tecplot_tools/hdf.py:121-122 | when the extension occurs only at the end of such a path, the macro path is the path with the extension replaced by `.mcr` |
| Paths.MacroPathOfH5 | tecplot_tools/hdf.py:121-122 | `dir/stem.h5`, with no dot in the directory or the stem, gets `dir/stem.mcr` |
| Paths.InsertEverywhere | tecplot_tools/hdf.py:122 | `s.replace("", rep)` is `s` with `rep` inserted at each of the `len(s) + 1` positions, so its length is `len(s) + len(rep) * (len(s) + 1)` |
| Paths.ReplaceAllOnlyAtEnd | tecplot_tools/hdf.py:122 | when the pattern occurs only at the end, replacing every occurrence swaps the end |
| Paths.MacroPathSwapsSuffix | tecplot_tools/hdf.py:121-122 | when the suffix occurs only at the end, the macro path is the path with the suffix replaced by `.mcr` |
| Paths.MacroPathWithoutSuffix | tecplot_tools/hdf.py:121-122 | without a suffix, `.mcr` is inserted before every character and at the end, so the path length becomes 5n+4, not n+4 |
| Paths.ReplaceAllMatch | tecplot_tools/hdf.py:122 | an occurrence at the front is replaced and the scan goes on after it |
| Paths.ReplaceAllSkip | tecplot_tools/hdf.py:122 | a character that cannot start the pattern is kept |
| Paths.SkipPrefix | tecplot_tools/hdf.py:122 | characters none of which can start the pattern pass through the replacement unchanged |
| Paths.ReplaceAllTwice | tecplot_tools/hdf.py:122 | a path whose directory and name both end in the pattern has both occurrences replaced |
| Paths.RenamesDirectoryAndName | tecplot_tools/hdf.py:122 | replacing `.h5` by `.mcr` in `/r.h5/a.h5` gives `/r.mcr/a.mcr` |
| Paths.SuffixOfExample | tecplot_tools/hdf.py:122 | the suffix of `/r.h5/a.h5` is `.h5` |
| Paths.MacroPathRenamesDirectory | tecplot_tools/hdf.py:121-122 | the macro of `/r.h5/a.h5` is `/r.mcr/a.mcr`: a directory named like the suffix is renamed too |
| Paths.ReplaceAllSelf | tecplot_tools/hdf.py:122 | replacing a pattern by itself leaves the string unchanged |
| Paths.MacroPathOfMcrContainer | tecplot_tools/hdf.py:122-124 | a container with suffix `.mcr` gets its own path as macro path |
| Arrays.ValidAxis | tecplot_tools/hdf.py:50 | Python accepts the index `t` into a shape of length `n` exactly when `-n <= t < n` |
| Arrays.StepCount | tecplot_tools/hdf.py:47-50 | the value `nt` ends with: unbound for static data, the IndexError for a time axis invalid for the maximum rank, else `Arrays.Steps` |
| Arrays.Steps | tecplot_tools/hdf.py:47-50 | the extent along the time axis of the last variable, in mapping order, of maximum rank |
| Arrays.MaxRank | tecplot_tools/hdf.py:43-44 | the maximum rank bounds every rank and is the rank of some variable |
| Arrays.NormalizeAxis | tecplot_tools/hdf.py:50 | a valid Python index denotes a position below the length, equal to the index or the index plus the length |
| Arrays.LastOfRank | tecplot_tools/hdf.py:47-50 | the last position whose variable has the given rank |
| Arrays.SelectSteps | tecplot_tools/hdf.py:47-50 | the loop fails exactly when a time axis is given that is invalid for the maximum rank; otherwise `nt` is the extent along the axis of the last variable of maximum rank |
| Layout.GroupKey | tecplot_tools/hdf.py:65 | the key `Z{it}/{name}` of a transient write |
| Layout.TransientAttempt | tecplot_tools/hdf.py:63-67 | a 4-D variable is sliced at `it` along the time axis, or raises IndexError when it has no step `it`; any other variable is stored whole under `Z{it}/{name}` |
| Layout.StaticAttempt | tecplot_tools/hdf.py:69-70 | a variable is stored whole under its own name, and a 0-d one raises IndexError |
| Layout.Execute | tecplot_tools/hdf.py:59-70 | the writes run in order; the first error ends the phase and the writes before it stay in the file |
| Layout.GroupKeyInjective | tecplot_tools/hdf.py:65-67 | `Z{it}/{name}` keys of different steps or names differ |
| Layout.RemoveAxis | tecplot_tools/hdf.py:64 | the shape of a slice is the shape without the time axis |
| Layout.TransientAttemptsLength | tecplot_tools/hdf.py:61-67 | `nt` steps issue `nt` times the number of variables writes |
| Layout.ExecuteWritesOkPrefix | tecplot_tools/hdf.py:59-70 | what reaches the file is the longest prefix of successful writes; the phase fails exactly when a write fails, with that write's error |
| Layout.ExecuteAllOk | tecplot_tools/hdf.py:59-70 | when every write succeeds, all are stored and nothing is raised |
| Layout.ExecuteStopsAt | tecplot_tools/hdf.py:59-70 | the first failing write ends the phase with its error, after the writes before it |
| Layout.TransientAttemptsExtend | tecplot_tools/hdf.py:61 | the writes of the first `m` steps are a prefix of those of the first `nt` |
| Layout.TransientAttemptAt | tecplot_tools/hdf.py:61-67 | step-major order: write `it * nv + j` (with `nv` variables) is that of variable `j` in step `it` |
| Layout.TransientAttemptsSucceed | tecplot_tools/hdf.py:63-64 | when every 4-D variable has at least `nt` steps, every transient write succeeds |
| Layout.TransientSucceedsIffCovers | tecplot_tools/hdf.py:61-67 | the transient phase succeeds exactly when every 4-D variable has at least `nt` steps |
| Layout.TransientLayout | tecplot_tools/hdf.py:60-67 | `nt * nv` datasets for `nv` variables; the one for variable `j` in step `it` is under `Z{it}/{name}` and is sliced at `it` without the time axis exactly when the variable is 4-D, whole otherwise |
| Layout.StaticLayout | tecplot_tools/hdf.py:68-70 | without 0-d variables each variable is stored whole under its own name, in mapping order |
| Layout.StaticSucceedsIffNoScalar | tecplot_tools/hdf.py:69-70 | the static phase succeeds exactly when no variable is 0-d |
| Layout.StaticZeroRank | tecplot_tools/hdf.py:69-70 | the first 0-d variable raises IndexError after the variables before it were written |
| Layout.ExecuteAfterOk | tecplot_tools/hdf.py:59-70 | execution runs on past writes that succeed |
| Layout.ExecuteAfterFailure | tecplot_tools/hdf.py:59-70 | nothing after the first failure is executed |
| Layout.WriteStep | tecplot_tools/hdf.py:62-67 | the inner loop appends the step's successful writes and stops at the first failing one |
| Layout.TransientAttemptsAfterStep | tecplot_tools/hdf.py:61-62 | the writes of `nt` steps are those of the first `it + 1` steps then the rest |
| Layout.TransientStepFails | tecplot_tools/hdf.py:61-67 | a failing step ends the whole transient phase |
| Layout.TransientStepSucceeds | tecplot_tools/hdf.py:61-67 | a succeeding step extends the stored datasets by its own |
| Layout.WriteTransient | tecplot_tools/hdf.py:60-67 | the nested loops issue exactly the transient writes until the first failure |
| Layout.WriteStatic | tecplot_tools/hdf.py:68-70 | the loop issues exactly the static writes until the first failure |
| Layout.WriteDatasets | tecplot_tools/hdf.py:59-70 | the write phase, transient or static |
| Macro.TransientArgs | tecplot_tools/hdf.py:82-86 | the transient loader arguments: `-F nt`, the quoted file name `nt` times, `-D nt`, the zone list, `-G` and the variable count, the variable list and `-K 1 1 1` |
| Macro.StrandSettings | tecplot_tools/hdf.py:100-102 | the eleven `;`-terminated Strand Editor settings, with `nt`, `tstart` and `dt` in place |
| Macro.TransientMacro | tecplot_tools/hdf.py:83-102 | the transient template: header, data set reader, fixed reader lines and the Strand Editor call, joined by newlines |
| Macro.StaticArgs | tecplot_tools/hdf.py:106-108 | the static loader arguments: `-F 1`, the unquoted file name, `-D` and the variable count, the variable list and `-K 1 1 1` |
| Macro.StaticMacro | tecplot_tools/hdf.py:105-119 | the static template: header, data set reader and fixed reader lines, joined by newlines, with a final newline |
| Macro.ZonePaths | tecplot_tools/hdf.py:74-75 | `nt` group paths, the `i`-th being `/Z{i}/` |
| Macro.BuildZoneString | tecplot_tools/hdf.py:72-75 | the zone string is the quoted list of the `nt` group paths, or empty for static data |
| Macro.BuildVariableString | tecplot_tools/hdf.py:77-79 | the variable string is the quoted list of the names in mapping order |
| Macro.TransientArgsTokens | tecplot_tools/hdf.py:82-86 | the transient loader arguments read back as `-F nt`, the file name `nt` times, `-D nt`, the `nt` group paths, `-G` and the variable count, the names, and `-K 1 1 1` |
| Macro.StaticArgsTokens | tecplot_tools/hdf.py:106-108 | the static loader arguments read back as `-F 1`, the bare file name, `-D` and the variable count, the names, and `-K 1 1 1` |
| Macro.TransientArgsFileWords | tecplot_tools/hdf.py:82-84 | the transient arguments have `2nt + nv + 10` words for `nv` names, and words 2 to `nt + 1` are the file name |
| Macro.StaticArgsSplitBlankName | tecplot_tools/hdf.py:82-108 | a file name with a blank reaches the static loader as two words but the transient loader as one |
| Macro.TransientArgsFree | tecplot_tools/hdf.py:82-86 | the transient argument list holds no newline when the file name and names hold none |
| Macro.StaticArgsFree | tecplot_tools/hdf.py:106-108 | the static argument list holds no newline when the file name and names hold none |
| Macro.StrandSettingsFree | tecplot_tools/hdf.py:100-102 | no strand setting holds a newline or `;` when the time texts hold none |
| Macro.TransientMacroLines | tecplot_tools/hdf.py:83-102 | the transient macro's lines are the header, the data set reader, the eleven fixed reader lines and the three Strand Editor lines, with no final newline |
| Macro.StaticMacroLines | tecplot_tools/hdf.py:105-119 | the static macro's lines are the header, the data set reader and the eleven fixed reader lines, then a final newline |
| Macro.JoinLastEmpty | tecplot_tools/hdf.py:119 | a join whose last part is empty ends with the separator |
| Macro.StrandCommandFields | tecplot_tools/hdf.py:100-102 | the Strand Editor command splits at `;` into its eleven settings and ends with `;` |
| Macro.ReaderCommands | tecplot_tools/hdf.py:87-97 | of the fixed reader lines only the three axis assignments are `$!` commands |
| Macro.StrandCommands | tecplot_tools/hdf.py:98-102 | of the Strand Editor lines only `$!EXTENDEDCOMMAND` is a command |
| Macro.StaticMacroCommands | tecplot_tools/hdf.py:105-119 | the static macro's commands are the data set reader and the three axis assignments |
| Macro.TransientMacroCommands | tecplot_tools/hdf.py:83-102 | the transient macro's commands are the data set reader, the three axis assignments and the Strand Editor call |
| Exporter.MacroTemplate | tecplot_tools/hdf.py:72-119 | the template of a call: the transient one with the zone and variable lists when there is a step count, the static one otherwise |
| Exporter.ExportSpec | tecplot_tools/hdf.py:41-125 | the whole call: an empty mapping, an invalid time axis and a rank above 4 raise before opening; a failing write raises after the writes before it; `write_macro=False` raises UnboundLocalError; otherwise the macro is written to `MacroPath` and both paths are returned |
| Exporter.CreateHdf5 | tecplot_tools/hdf.py:41-125 | the call runs the checks, the write phase, the two loops and the path computation in the source's order, and ends as `ExportSpec` says |
| Exporter.AxisFitsFourD | tecplot_tools/hdf.py:52-64 | a time axis valid for a maximum rank of at most 4 is valid for a 4-D array |
| Exporter.EmptyMappingFails | tecplot_tools/hdf.py:43-44 | an empty mapping raises before the container is opened |
| Exporter.RankAboveFourFails | tecplot_tools/hdf.py:47-54 | above rank 4 nothing is opened or written and the call raises: IndexError for an invalid time axis, else the rank error |
| Exporter.WritesImplyRankAtMostFour | tecplot_tools/hdf.py:47-59 | an opened container implies a non-empty mapping, maximum rank at most 4 and a valid time axis |
| Exporter.UniformStepsCover | tecplot_tools/hdf.py:47-64 | when all 4-D variables have the same extent along the time axis, every one has `nt` steps |
| Exporter.LowRankCovers | tecplot_tools/hdf.py:63-67 | transient data of maximum rank below 4 is never sliced, so no transient write fails |
| Exporter.TransientExport | tecplot_tools/hdf.py:59-67 | the transient layout of a whole call, and it returns exactly when a macro is wanted |
| Exporter.TransientOutcome | tecplot_tools/hdf.py:59-125 | transient data that passes the checks opens the container; the call returns exactly when a macro is wanted and every 4-D variable has `nt` steps, and a macro is written exactly then |
| Exporter.StaticExport | tecplot_tools/hdf.py:68-70 | the static layout of a whole call, and it returns exactly when a macro is wanted |
| Exporter.StaticOutcome | tecplot_tools/hdf.py:68-125 | static data within the rank rule opens the container; the call returns exactly when a macro is wanted and no variable is 0-d |
| Exporter.NoMacroStillWrites | tecplot_tools/hdf.py:120-125 | without a macro the datasets are the same, no macro file is written, and a call that would have returned raises UnboundLocalError |
| Exporter.ReturnedPaths | tecplot_tools/hdf.py:120-125 | a returning call wrote its macro to the derived path and returns the container path and that path |
| Exporter.McrContainerOverwritten | tecplot_tools/hdf.py:122-124 | a container named `*.mcr` is overwritten by its own macro |
| Exporter.TransientMacroText | tecplot_tools/hdf.py:81-102 | the transient macro of a call has sixteen lines, the second loading the file `nt` times with the `nt` group paths and the names |
| Exporter.StaticMacroText | tecplot_tools/hdf.py:104-119 | the static macro of a call is the header, the reader line with the bare file name and the names, the fixed lines and a final newline; its words are stated by `Macro.StaticArgsTokens` |

## Left out

- HDF5 and file I/O are not modelled. The container is a record of the
  `create_dataset` calls, and the macro file is a record of its path and
  template. Failures of h5py or of the file system (permissions, disk
  space) are not modelled. Nor is h5py's reading of `/` in a variable name
  as a group separator, or its objection to a name that already exists.
- Array contents are not modelled: a variable is its name and shape, and
  a slice is the step index and the remaining shape.
- `Path(filename).absolute()` (line 41) and `Path(macro_filename)`
  (line 125) are not modelled; the model takes the absolute path as a
  string. The path arithmetic covers `/`-separated paths only.
- `tstart` and `dt` are taken as the text their f-string formatting
  produces; Python's float formatting is not modelled.
- The time axis is an integer; other index types numpy accepts are left
  out.
- `Text.Tokens` is a reference reading of the loader's argument list
  (blanks separate words, double quotes group them). It is not Tecplot's
  own parser.
- Exporter.TransientMacroText: states the macro's lines only for file
  names, variable names and time texts without newlines, and its words
  only for file and variable names without double quotes, since text
  holding those characters has no line or word reading.
- Exporter.StaticMacroText: states the macro's lines only for file and
  variable names without newlines, for the same reason.
- Macro.StaticArgsTokens: states the static loader's words only for a
  non-empty file name without blanks or double quotes and variable names
  without double quotes; `Macro.StaticArgsSplitBlankName` shows what a
  blank does.
- Paths.MacroPath: for a container path without a suffix the macro path
  is a relative path that lies under `.mcr/`, so `open` at line 123 would
  normally raise FileNotFoundError. The model does not see the file system
  and records the macro as written and the call as returning.
- The example scripts and the rest of the package are not part of this
  model.
