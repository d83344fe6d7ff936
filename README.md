# AVL wrapper: a verified model of its text protocols

`avl.py` drives the AVL aerodynamics solver over a sweep of angles of
attack. It reads a positional configuration file and derives one `Case` per
sampled alpha. For each case it writes a case file and builds the command
script that is piped into the solver. Afterwards it reads the solver's
polar and eigenmode reports back by line and column position.

This project models those pieces in Dafny, and proves what each piece
promises:

- `text.dfy` (`Text`): Python's `readlines()` and `str.split()`, and
  fixed line layouts with one value per line.
- `numbers.dfy` (`Numbers`): `float()`, `int()` and `str()` of a float as
  an abstract `NumberSyntax`; `int()` of a float as truncation toward zero.
- `config.dfy` (`AvlConfig`): `read_config`. It filters comment and blank
  lines, then picks the second token of the first fifteen remaining lines.
- `sweep.dfy` (`Sweep`): the sample count `int(1+(alpha1-alpha0)/increment)`
  and `np.linspace`.
- `case.dfy` (`AvlCase`): the `Case` class, `write_aero_case`,
  `write_stab_case` and the case-file paths, plus a reader for case files
  that proves the written text holds exactly the written values.
- `commands.dfy` (`AvlCommands`): the command script of `analysis` and
  the result-file paths.
- `reports.dfy` (`AvlReports`): positional decoding of the polar and
  eigenmode reports.
- `avl.dfy` (`Avl`): the `Aero` class. It covers `read_config` on the
  object's fields, case derivation, `analysis` up to the solver call, and
  `read_aero` / `read_modes` over all cases.

Files are values. A file read is given as its text, or as a map from path
to text. A file write returns the text that would be written. Python
exceptions are `Result` failures that the model returns to the caller.
In the source, an exception raised in the main thread ends the run. One
raised inside `pool.map` is not re-raised, because `run` never iterates
the map's results.

Two behaviours of the code are worth stating outright:

- **Alpha samples.** `np.linspace(alpha0, alpha1, count)` spreads the
  count over the whole range `[alpha0, alpha1]`. It does not step by
  `increment`. So 0 to 5 by 2 gives `[0, 2.5, 5]`, not the progression
  `[0, 2, 4]`; `Sweep.UnevenRange` proves this. For two or more samples
  the last sample is `alpha1`. `Sweep.ExactMultipleIsProgression` proves
  that the samples are `alpha0 + i*increment` when the range is an exact
  multiple of the increment.
- **A case with no analysis type.** `analysis` raises its `ValueError`
  inside `pool.map`. `run` never iterates the map's results, so the error
  is never re-raised. `run` is not part of this model (see "Left out").
  `Aero.Analysis` models the raise itself as a failure returned before any
  field is set.

## Model

| member | source | states |
|---|---|---|
| Text.Tokens | avl.py:135 | every token of `split()` is non-empty and holds no whitespace |
| Text.TokensUnwords | avl.py:135 | `split()` of words joined by single spaces gives back exactly those words |
| Text.ReadLines | avl.py:131 | `readlines()` yields non-empty lines; every line but the last ends in its only newline |
| Text.ConcatReadLines | avl.py:131 | the lines of `readlines()`, put back together, are the whole file |
| Text.ReadLinesConcat | avl.py:131 | `readlines()` of complete lines written one after another gives those lines back |
| AvlConfig.YesNo | avl.py:128 | `str_to_bool` is true exactly for the token "Y" |
| AvlConfig.SignificantLines | avl.py:130-132 | the lines left after `readlines()` and the comment filter: no more than the file has, each non-empty, not starting with '#', not "\n" |
| AvlConfig.KeptLines | avl.py:132 | every kept line is non-empty, starts with no '#' and is not "\n"; nothing is added |
| AvlConfig.KeptLinesMembers | avl.py:132 | a line is kept if and only if it is in the file and is significant |
| AvlConfig.KeptLinesAppend | avl.py:132 | filtering a concatenation filters each part, so kept lines keep their file order |
| AvlConfig.KeptLinesAllSignificant | avl.py:132 | a file of significant lines loses nothing |
| AvlConfig.Token | avl.py:147 | `lines[k].split()[1]` succeeds iff line k exists with two tokens; otherwise IndexError for parameter k |
| AvlConfig.FloatParameter | avl.py:135-145 | `float(lines[k].split()[1])`: the parsed value, IndexError when missing, ValueError when unparsable |
| AvlConfig.IntParameter | avl.py:146 | `int(lines[11].split()[1])`: the parsed value, or the error for parameter 11 |
| AvlConfig.FlagParameter | avl.py:148-149 | the flag is true exactly when the token is "Y"; fails only when the token is missing |
| AvlConfig.Parameter | avl.py:135-149 | the assignment of parameter k takes a float for 0..10, an int for 11, the raw token for 12 and a flag for 13 and 14; it fails iff the parameter is missing or does not convert |
| AvlConfig.ParseParameters | avl.py:134-149 | the assignments of parameters 0..n-1 in source order: all succeed iff each parameter converts, and otherwise the error names the first one that does not |
| AvlConfig.ParseSignificant | avl.py:134-152 | succeeds iff all fifteen parameters are present and convert; each field is the conversion of its line's second token; on failure, the error names the first failing parameter in source order |
| AvlConfig.ParseConfig | avl.py:130-152 | `read_config` on a file's text: readlines, filter, then the positional parse; success needs at least fifteen significant lines |
| AvlConfig.TooFewLinesFail | avl.py:134-152 | fewer than fifteen significant lines: no configuration |
| AvlConfig.ShortLineFails | avl.py:134-152 | a significant line among the first fifteen with under two tokens: no configuration |
| AvlConfig.ConfigLineRead | avl.py:131-135 | a `name value` line is one complete significant line whose tokens are exactly the name and the value |
| AvlConfig.WrittenConfigValues | avl.py:130-149 | a file of fifteen `name value` lines yields value k as parameter k |
| Numbers.Trunc | avl.py:103 | `int()` of a float truncates toward zero |
| Sweep.SampleCount | avl.py:100-104 | ZeroDivisionError iff the increment is 0; negative counts fail; otherwise the count is the truncation of `1+(alpha1-alpha0)/increment` |
| Sweep.Linspace | avl.py:100-104 | `count` samples, first `alpha0`, last `alpha1`, evenly spaced |
| Sweep.LinspaceEvenlySpaced | avl.py:100-104 | consecutive samples differ by `(alpha1-alpha0)/(count-1)` |
| Sweep.ExactMultipleIsProgression | avl.py:100-104 | when the range is k increments, the samples are `alpha0 + i*increment` for i in 0..k |
| Sweep.SamplesDistinct | avl.py:100-104 | no two samples of a sweep coincide |
| Sweep.EvenRange | avl.py:100-104 | 0 to 10 by 2 gives six samples 0, 2, 4, 6, 8, 10 |
| Sweep.UnevenRange | avl.py:100-104 | 0 to 5 by 2 gives three samples 0, 2.5, 5 |
| AvlCase.AeroCasePath | avl.py:60 | the aero case path lies in `cases/`, ends in `deg.case`, and holds the alpha string between the two |
| AvlCase.AeroCaseText | avl.py:46-58 | the aero case text: the fifteen layout lines filled with the case's rendered values, spelled out piece by piece in `AeroCaseTextSpelled` |
| AvlCase.StabCaseText | avl.py:73-78 | the stability case text: the eight layout lines filled with the rendered values, spelled out in `StabCaseTextSpelled` |
| AvlCase.AeroCasePathInjective | avl.py:60 | distinct alpha strings give distinct aero case paths |
| AvlCase.AeroCasePathNotStab | avl.py:80 | no aero case path is `cases/tail.case` |
| AvlCase.AeroCaseTextSpelled | avl.py:46-58 | the aero case text is the thirteen pieces `write_aero_case` appends, in order (fifteen lines) |
| AvlCase.StabCaseTextSpelled | avl.py:73-78 | the stability case text is the six pieces `write_stab_case` appends, in order (eight lines) |
| AvlCase.AeroCaseRoundTrip | avl.py:46-58 | re-reading a written aero case file gives back every written value |
| AvlCase.AeroCaseDecodeExact | avl.py:46-58 | any text that reads as an aero case file is exactly what the writer produces for those values |
| AvlCase.StabCaseRoundTrip | avl.py:73-78 | re-reading a written stability case file gives back every written value |
| AvlCase.StabCaseDecodeExact | avl.py:73-78 | any text that reads as a stability case file is exactly what the writer produces |
| AvlCase.Case.constructor | avl.py:23-43 | the given values are stored; all derived paths and results start out None (for `dutch` and `roll`, which the source leaves undefined, see "Left out") |
| AvlCase.Case.WriteAeroCase | avl.py:45-67 | returns the aero case text of the case's own values; `case_file` becomes `cases/<alpha>deg.case` |
| AvlCase.Case.WriteStabCase | avl.py:69-86 | returns the stability case text; `case_file` becomes `cases/tail.case` |
| AvlCommands.ResultsStem | avl.py:187 | `results/<plane>-<alpha>deg`: under `results/`, ending in `deg`, with `<plane>-<alpha>` between the two |
| AvlCommands.ModesPath | avl.py:193 | the stem followed by `.eig` |
| AvlCommands.PolarsPath | avl.py:198 | the stem followed by `.polars` |
| AvlCommands.ScriptPrefix | avl.py:182-185 | the load, case and mass lines, then the trim run `oper o v (blank) x` |
| AvlCommands.ModeBlock | avl.py:195-196 | the eigenmode commands, then the `.eig` path and a blank line |
| AvlCommands.PolarBlock | avl.py:200-201 | the stability-derivative commands, then the `.polars` path |
| AvlCommands.Script | avl.py:182-201 | the prefix, then the mode block if asked for, then the polar block if asked for; its layout is stated by `ScriptBlocks` |
| AvlCommands.ScriptStartsWithPrefix | avl.py:182-185 | every script starts with the load/case/mass/oper prefix |
| AvlCommands.ScriptBlocks | avl.py:192-201 | after the prefix comes the mode block iff modes, then the polar block iff polars |
| AvlCommands.ScriptDeterminesFlags | avl.py:192-201 | two flag settings never give the same script |
| AvlCommands.ModesPathInjective | avl.py:187-193 | for one plane, distinct alpha strings give distinct `.eig` paths |
| AvlCommands.PolarsPathInjective | avl.py:187-198 | for one plane, distinct alpha strings give distinct `.polars` paths |
| AvlCommands.ModesPathNotPolarsPath | avl.py:193-198 | an eigenmode path is never a polar path |
| AvlCommands.ResultsApartFromCases | avl.py:187 | result paths lie under `results/`, apart from every case file |
| AvlReports.Pick | avl.py:213 | `float(lines[row].split()[col])` succeeds iff the row, token and number exist; IndexError for the row iff the file is too short |
| AvlReports.DecodePolar | avl.py:213-217 | Cl, Cd, Clb, Clp, spiral are tokens 2, 2, 8, 5, 6 of rows 23, 24, 38, 46, 52; the first failing pick is the error |
| AvlReports.ShortPolarReportFails | avl.py:217 | a polar report of 52 lines or fewer never decodes |
| AvlReports.VeryShortPolarReport | avl.py:213 | a report of 23 lines or fewer fails with IndexError on row 23 |
| AvlReports.PickWritten | avl.py:213-217 | a row written as tokens yields the number at the picked column |
| AvlReports.ParseAll | avl.py:232 | `tuple(map(float, ts))`: all values, or ValueError at the first unparsable token |
| AvlReports.Eigenvalues | avl.py:232-234 | `lines[k].split()[1:]` as floats: IndexError exactly when the report has no line k; otherwise success iff every token after the label parses, the values being those tokens in order, and on failure the first unparsable token after the label |
| AvlReports.DecodeModes | avl.py:231-243 | dutch and roll are every token after the first of rows 3 and 5; the Dutch row fails first |
| AvlReports.ModesIndexErrorOnlyWhenShort | avl.py:232-243 | the only IndexError read_modes can raise comes from a report of five lines or fewer |
| AvlReports.EigenvaluesWritten | avl.py:232-234 | a row written as a label and numbers reads back as those numbers |
| Avl.SweepPathsDistinct | avl.py:60-120 | when `str()` tells the sweep's own samples apart, no two cases of the sweep share a case or result path |
| Avl.UnevenSweepPathsDistinct | avl.py:60-120 | the sweep 0 to 5 by 2 has three samples, and with `str()` printing them "0.0", "2.5", "5.0" every pair of its cases gets distinct case, `.eig` and `.polars` paths |
| Avl.ReadReport | avl.py:210-211 | one case's report: opening a None path fails, a missing file fails, otherwise the decoded report |
| Avl.ReadReports | avl.py:209-219 | all cases' reports in case order; succeeds iff each case's report decodes |
| Avl.ReadReportsFirstFailure | avl.py:209-219 | reading fails with the error of the first case whose report fails |
| Avl.ReadReportsAll | avl.py:209-219 | when every case's report decodes, reading yields them all in case order |
| Avl.ReadReportsAppend | avl.py:209-219 | the rows of earlier cases do not depend on later ones |
| Avl.ReadPolarOf | avl.py:210-217 | reading one case's polar report gives that case's report result; on success the case holds the five coefficients, on failure it is unchanged |
| Avl.ReadModesOf | avl.py:228-234 | reading one case's eigenmode report gives that case's report result; on success the case holds both eigenvalue tuples, on failure it is unchanged |
| Avl.Aero.Assign | avl.py:135-149 | the object's fifteen settings become the configuration |
| Avl.Aero.AssignMassProperties | avl.py:135-142 | mass, centre of gravity, inertia and velocity take the configured values |
| Avl.Aero.AssignSweep | avl.py:143-149 | the sweep, thread count, units and both flags take the configured values |
| Avl.Aero.ReadConfig | avl.py:124-154 | the result is the parsed configuration; on success the fields hold it |
| Avl.Aero.DeriveCases | avl.py:100-120 | one fresh case per linspace sample, in order, each copying mass, cg, inertia, velocity and flags, with distinct objects |
| Avl.Aero.Analysis | avl.py:179-205 | fails iff neither flag is set, then changing nothing; otherwise the script is prefix + flagged blocks, and exactly the flagged result paths are set |
| Avl.Aero.ReadAero | avl.py:207-223 | one row per case in case order, from the case's own polar report; each case holds its coefficients; the first failing case's error otherwise |
| Avl.Aero.ReadAeroWith | avl.py:207-219 | the loop of `read_aero` for any decoding of one report: rows and stored coefficients as for `ReadAero`, or the first failing case's error |
| Avl.Aero.ReadModes | avl.py:225-269 | one row per case in case order, from the case's own eigenmode report; each case holds its eigenvalues; the first failing case's error otherwise |
| Avl.Aero.ReadModesWith | avl.py:225-255 | the loop of `read_modes` for any decoding of one report: rows and stored eigenvalues as for `ReadModes`, or the first failing case's error |
| Avl.NewAero | avl.py:89-122 | succeeds iff the configuration parses and the sample count is valid; the object holds the configuration and the derived cases |

## Left out

- `avl_cmd` and the solver process (avl.py:10-20): an external program. `Aero.Analysis` returns the script instead of piping it.
- `run` and `create_cases` (avl.py:156-177): thread-pool fan-out. Neither their sequential composition nor the swallowing of the `analysis` ValueError by `pool.map` is modelled.
- Directory reset in `Aero.__init__` (avl.py:90-96), and the `open`/`write` calls: file I/O. Case texts are returned and reports are given as a map from path to contents.
- `float()`, `int()`, `str()` and numpy's float64: abstract in `Numbers.NumberSyntax`. Values are exact reals, so float rounding in the sample count and in `np.linspace` is not modelled.
- pandas DataFrame assembly (avl.py:221, avl.py:257-267): the tables are sequences of rows.
- `Plane` (avl.py:8): only its `name` and `geom_file` are used. `__main__` (avl.py:271-278) is an entry point only.
- The `id` parameter and field of `Case` (avl.py:23, avl.py:40): never read.
- The printed diagnostics before `exit()` in `read_config` and `read_modes`: replaced by the returned error value.
- Newline translation by text-mode `open()`: universal newlines turn "\r\n" and a lone "\r" into "\n" and end a line at either. The model reads the text as it is, so it splits lines at "\n" only.
- `Case.dutch` and `Case.roll` (avl.py:232-234): the source's `__init__` never defines them, so reading them before `read_modes` raises AttributeError. The model starts them as None.
- Avl.Aero.ReadAero: when a later pick of a case fails, the source has already stored that case's earlier coefficients. The model stores nothing for the failing case and states nothing about the cases on failure, because the failure ends the run.
- Avl.Aero.ReadModes: likewise, a failed roll row leaves `dutch` set in the source but not in the model.
- Avl.ReadPolarOf: the source stores each coefficient as soon as it is picked (avl.py:213-217), so a failed later pick leaves the earlier coefficients set. The model stores the five together on success and leaves the case unchanged on failure. The failure ends the run either way.
- Avl.ReadModesOf: the source stores `dutch` (avl.py:232) before it reads row 5 (avl.py:234), so a failed roll row leaves `dutch` set. The model leaves the case unchanged on failure.
- Avl.Aero.ReadAeroWith: states nothing about the cases on failure, where the source has stored the earlier cases and part of the failing one; see `Avl.ReadPolarOf`.
- Avl.Aero.ReadModesWith: states nothing about the cases on failure, where the source has stored the earlier cases and possibly the failing case's `dutch`; see `Avl.ReadModesOf`.
- Avl.Aero.ReadConfig: on failure the source has already assigned the parameters before the failing one. The model leaves the fields unconstrained on failure, since the run ends.
