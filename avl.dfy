/**
 * The Aero object: the parsed configuration, the sampled cases, the command
 * script of each case and the tables read back from the solver's reports.
 * Files are a map from path to contents; the solver itself is not modelled.
 */
module Avl {

  import opened Wrappers
  import opened Text
  import opened Numbers
  import opened AvlConfig
  import opened Sweep
  import opened AvlCase
  import opened AvlCommands
  import opened AvlReports

  /** The parts of a plane the analysis reads: its name and its geometry file. */
  datatype Plane = Plane(name: string, geomFile: string)

  /** Why the Aero object cannot be built: a bad configuration or an impossible sweep. */
  datatype InitError = BadConfig(config: ConfigError) | BadSweep(sweep: SweepError)

  /** The ValueError analysis raises when a case asks for neither analysis. */
  datatype AnalysisError = NoAnalysisType

  /**
   * Why a table cannot be read: the case has no result path (open(None)
   * raises TypeError), the file does not exist, or the report does not decode.
   */
  datatype ReadError =
    | NoResultFile(index: nat)
    | FileNotFound(path: string)
    | BadReport(path: string, report: ReportError)

  /** One row of the polars table: the case's alpha and its five coefficients. */
  datatype PolarRow = PolarRow(alpha: Option<real>, cl: real, cd: real, clb: real, clp: real, spiral: real)

  /** One row of the modes table. */
  datatype ModesRow = ModesRow(alpha: Option<real>, dutch: seq<real>, roll: seq<real>)

  /**
   * Paths are unique across the sweep as long as str() tells the sweep's
   * own samples apart: no two cases share a case file or a result file.
   */
  lemma SweepPathsDistinct(alpha0: real, alpha1: real, increment: real, name: string, show: real -> string)
    requires SampleCount(alpha0, alpha1, increment).Success?
    requires var alphas := Linspace(alpha0, alpha1, SampleCount(alpha0, alpha1, increment).value);
      forall x, y | x in alphas && y in alphas :: show(x) == show(y) ==> x == y
    ensures var alphas := Linspace(alpha0, alpha1, SampleCount(alpha0, alpha1, increment).value);
      forall i, j | 0 <= i < j < |alphas| ::
        && AeroCasePath(show(alphas[i])) != AeroCasePath(show(alphas[j]))
        && ModesPath(ResultsStem(name, show(alphas[i]))) != ModesPath(ResultsStem(name, show(alphas[j])))
        && PolarsPath(ResultsStem(name, show(alphas[i]))) != PolarsPath(ResultsStem(name, show(alphas[j])))
  {
    var alphas := Linspace(alpha0, alpha1, SampleCount(alpha0, alpha1, increment).value);
    SamplesDistinct(alpha0, alpha1, increment);
    forall i, j | 0 <= i < j < |alphas|
      ensures && AeroCasePath(show(alphas[i])) != AeroCasePath(show(alphas[j]))
              && ModesPath(ResultsStem(name, show(alphas[i]))) != ModesPath(ResultsStem(name, show(alphas[j])))
              && PolarsPath(ResultsStem(name, show(alphas[i]))) != PolarsPath(ResultsStem(name, show(alphas[j])))
    {
      var a, b := show(alphas[i]), show(alphas[j]);
      assert alphas[i] in alphas && alphas[j] in alphas;
      assert a != b;
      if AeroCasePath(a) == AeroCasePath(b) {
        AeroCasePathInjective(a, b);
      }
      if ModesPath(ResultsStem(name, a)) == ModesPath(ResultsStem(name, b)) {
        ModesPathInjective(name, a, b);
      }
      if PolarsPath(ResultsStem(name, a)) == PolarsPath(ResultsStem(name, b)) {
        PolarsPathInjective(name, a, b);
      }
    }
  }

  /** The sweep 0 to 5 by 2, printed as "0.0", "2.5", "5.0": its three cases have three sets of paths. */
  lemma UnevenSweepPathsDistinct(name: string)
    ensures var show := (x: real) => if x == 0.0 then "0.0" else if x == 2.5 then "2.5" else "5.0";
      var alphas := Linspace(0.0, 5.0, SampleCount(0.0, 5.0, 2.0).value);
      && SampleCount(0.0, 5.0, 2.0).Success?
      && |alphas| == 3
      && forall i, j | 0 <= i < j < |alphas| ::
        && AeroCasePath(show(alphas[i])) != AeroCasePath(show(alphas[j]))
        && ModesPath(ResultsStem(name, show(alphas[i]))) != ModesPath(ResultsStem(name, show(alphas[j])))
        && PolarsPath(ResultsStem(name, show(alphas[i]))) != PolarsPath(ResultsStem(name, show(alphas[j])))
  {
    var show := (x: real) => if x == 0.0 then "0.0" else if x == 2.5 then "2.5" else "5.0";
    UnevenRange();
    SweepPathsDistinct(0.0, 5.0, 2.0, name, show);
  }

  // ---------------------------------------------------------------------
  // Reading one report per case

  /** Opening, reading and decoding the report of the case at `index`. */
  function ReadReport<R>(index: nat, path: Option<string>, files: map<string, string>,
                         decode: seq<string> -> Result<R, ReportError>): (r: Result<R, ReadError>)
    ensures r.Success? <==> path.Some? && path.value in files && decode(ReadLines(files[path.value])).Success?
    ensures r.Success? ==> decode(ReadLines(files[path.value])) == Success(r.value)
  {
    match path
    case None => Failure(NoResultFile(index))
    case Some(p) =>
      if p !in files then Failure(FileNotFound(p))
      else
        match decode(ReadLines(files[p]))
        case Failure(e) => Failure(BadReport(p, e))
        case Success(x) => Success(x)
  }

  /** The reports of all cases, in case order; the first case that fails ends the reading. */
  function ReadReports<R>(paths: seq<Option<string>>, files: map<string, string>,
                          decode: seq<string> -> Result<R, ReportError>): (r: Result<seq<R>, ReadError>)
    decreases |paths|
    ensures r.Success? <==> forall i | 0 <= i < |paths| :: ReadReport(i, paths[i], files, decode).Success?
    ensures r.Success? ==> |r.value| == |paths|
    ensures r.Success? ==> forall i | 0 <= i < |paths| :: ReadReport(i, paths[i], files, decode) == Success(r.value[i])
  {
    if paths == [] then Success([])
    else
      var n := |paths| - 1;
      var rows :- ReadReports(paths[..n], files, decode);
      var row :- ReadReport(n, paths[n], files, decode);
      assert forall i | 0 <= i < n :: paths[..n][i] == paths[i];
      Success(rows + [row])
  }

  /** Reading fails with the error of the first case that fails, and only then. */
  lemma {:induction false} ReadReportsFirstFailure<R>(paths: seq<Option<string>>, files: map<string, string>,
                                                      decode: seq<string> -> Result<R, ReportError>, k: nat)
    requires k < |paths| && ReadReport(k, paths[k], files, decode).Failure?
    requires forall i | 0 <= i < k :: ReadReport(i, paths[i], files, decode).Success?
    ensures ReadReports(paths, files, decode) == Failure(ReadReport(k, paths[k], files, decode).error)
    decreases |paths|
  {
    var n := |paths| - 1;
    assert forall i | 0 <= i < |paths[..n]| :: paths[..n][i] == paths[i];
    if k < n {
      ReadReportsFirstFailure(paths[..n], files, decode, k);
    } else {
      assert ReadReports(paths[..n], files, decode).Success?;
    }
  }

  /** Reading succeeds with the reports of all cases when each case's report reads. */
  lemma ReadReportsAll<R>(paths: seq<Option<string>>, files: map<string, string>,
                          decode: seq<string> -> Result<R, ReportError>, xs: seq<R>)
    requires |xs| == |paths|
    requires forall i | 0 <= i < |paths| :: ReadReport(i, paths[i], files, decode) == Success(xs[i])
    ensures ReadReports(paths, files, decode) == Success(xs)
  {
    var r := ReadReports(paths, files, decode);
    assert r.Success?;
    forall i | 0 <= i < |paths| ensures r.value[i] == xs[i] {
      assert ReadReport(i, paths[i], files, decode) == Success(r.value[i]);
    }
    assert r.value == xs;
  }

  /** Each case's row depends on its own report only: reading a split list reads each part. */
  lemma {:induction false} ReadReportsAppend<R>(a: seq<Option<string>>, b: seq<Option<string>>, files: map<string, string>,
                                                decode: seq<string> -> Result<R, ReportError>)
    requires ReadReports(a, files, decode).Success?
    ensures ReadReports(a + b, files, decode).Success? ==>
      ReadReports(a + b, files, decode).value[..|a|] == ReadReports(a, files, decode).value
  {
    var ab := a + b;
    var r := ReadReports(ab, files, decode);
    var ra := ReadReports(a, files, decode);
    if r.Success? {
      forall i | 0 <= i < |a| ensures r.value[i] == ra.value[i] {
        assert ab[i] == a[i];
        assert ReadReport(i, ab[i], files, decode) == Success(r.value[i]);
      }
    }
  }

  /** The decoder read_aero applies to each polar report. */
  function PolarDecoder(num: NumberSyntax): seq<string> -> Result<Polar, ReportError> {
    lines => DecodePolar(lines, num)
  }

  /** The decoder read_modes applies to each eigenmode report. */
  function ModesDecoder(num: NumberSyntax): seq<string> -> Result<Modes, ReportError> {
    lines => DecodeModes(lines, num)
  }

  /** The table row of a case: its alpha and the coefficients of its report. */
  function PolarRowOf(alpha: Option<real>, p: Polar): PolarRow {
    PolarRow(alpha, p.cl, p.cd, p.clb, p.clp, p.spiral)
  }

  function ModesRowOf(alpha: Option<real>, m: Modes): ModesRow {
    ModesRow(alpha, m.dutch, m.roll)
  }

  /** The case carries the five coefficients of the report. */
  predicate HoldsPolar(c: Case, p: Polar)
    reads c
  {
    c.cl == Some(p.cl) && c.cd == Some(p.cd) && c.clb == Some(p.clb) && c.clp == Some(p.clp)
    && c.spiral == Some(p.spiral)
  }

  /** The case carries both eigenvalue tuples of the report. */
  predicate HoldsModes(c: Case, m: Modes)
    reads c
  {
    c.dutch == Some(m.dutch) && c.roll == Some(m.roll)
  }

  /**
   * The body of read_aero's loop for one case: open and decode its polar
   * report, then store the five coefficients in the case.
   */
  method ReadPolarOf(c: Case, index: nat, files: map<string, string>,
                     decode: seq<string> -> Result<Polar, ReportError>)
      returns (report: Result<Polar, ReadError>)
    modifies c`cl, c`cd, c`clb, c`clp, c`spiral
    ensures report == ReadReport(index, c.polarsResultsFile, files, decode)
    ensures report.Failure? ==> unchanged(c)
    ensures report.Success? ==> HoldsPolar(c, report.value)
  {
    report := ReadReport(index, c.polarsResultsFile, files, decode);
    if report.Success? {
      var p := report.value;
      c.cl, c.cd, c.clb, c.clp, c.spiral := Some(p.cl), Some(p.cd), Some(p.clb), Some(p.clp), Some(p.spiral);
    }
  }

  /**
   * The body of read_modes's loop for one case: open and decode its
   * eigenmode report, then store both eigenvalue tuples in the case.
   */
  method ReadModesOf(c: Case, index: nat, files: map<string, string>,
                     decode: seq<string> -> Result<Modes, ReportError>)
      returns (report: Result<Modes, ReadError>)
    modifies c`dutch, c`roll
    ensures report == ReadReport(index, c.modesResultsFile, files, decode)
    ensures report.Failure? ==> unchanged(c)
    ensures report.Success? ==> HoldsModes(c, report.value)
  {
    report := ReadReport(index, c.modesResultsFile, files, decode);
    if report.Success? {
      var m := report.value;
      c.dutch, c.roll := Some(m.dutch), Some(m.roll);
    }
  }

  /** No object is listed twice. */
  predicate Distinct(cs: seq<Case>) {
    forall i, j | 0 <= i < j < |cs| :: cs[i] != cs[j]
  }

  // ---------------------------------------------------------------------
  // The Aero object

  class Aero {
    var mass: real
    var xcg: real
    var ycg: real
    var zcg: real
    var ixx: real
    var iyy: real
    var izz: real
    var velocity: real
    var alpha0: real
    var alpha1: real
    var increment: real
    var threads: int
    var units: string
    var polars: bool
    var modes: bool
    var cases: seq<Case>

    /** The configuration held by the object's fields. */
    function Settings(): Config
      reads this
    {
      Config(mass, xcg, ycg, zcg, ixx, iyy, izz, velocity, alpha0, alpha1, increment,
             threads, units, polars, modes)
    }

    /** No case object is listed twice. */
    predicate DistinctCases()
      reads this
    {
      Distinct(cases)
    }

    /** A case carrying this object's mass, cg, inertia, velocity and flags unchanged. */
    predicate CopiesSettings(c: Case)
      reads this, c
    {
      && c.xcg == xcg && c.ycg == ycg && c.zcg == zcg && c.mass == mass
      && c.ixx == Some(ixx) && c.iyy == Some(iyy) && c.izz == Some(izz)
      && c.velocity == Some(velocity)
      && c.modes == modes && c.polars == polars
    }

    /** The object before read_config has run: no cases yet. */
    constructor ()
      ensures cases == []
    {
      mass, xcg, ycg, zcg := 0.0, 0.0, 0.0, 0.0;
      ixx, iyy, izz, velocity := 0.0, 0.0, 0.0, 0.0;
      alpha0, alpha1, increment := 0.0, 0.0, 0.0;
      threads, units, polars, modes := 0, "", false, false;
      cases := [];
    }

    /** read_config: the fifteen positional parameters of the config text, assigned to the fields. */
    method ReadConfig(text: string, num: NumberSyntax) returns (r: Result<Config, ConfigError>)
      modifies this`mass, this`xcg, this`ycg, this`zcg, this`ixx, this`iyy, this`izz, this`velocity
      modifies this`alpha0, this`alpha1, this`increment, this`threads, this`units, this`polars, this`modes
      ensures r == ParseConfig(text, num)
      ensures r.Success? ==> Settings() == r.value
    {
      r := ParseConfig(text, num);
      if r.Success? {
        Assign(r.value);
      }
    }

    /** The fifteen assignments of read_config. */
    method Assign(c: Config)
      modifies this`mass, this`xcg, this`ycg, this`zcg, this`ixx, this`iyy, this`izz, this`velocity
      modifies this`alpha0, this`alpha1, this`increment, this`threads, this`units, this`polars, this`modes
      ensures Settings() == c
    {
      AssignMassProperties(c);
      AssignSweep(c);
    }

    /** The first eight assignments: mass, centre of gravity, inertia and velocity. */
    method AssignMassProperties(c: Config)
      modifies this`mass, this`xcg, this`ycg, this`zcg, this`ixx, this`iyy, this`izz, this`velocity
      ensures mass == c.mass && xcg == c.xcg && ycg == c.ycg && zcg == c.zcg
      ensures ixx == c.ixx && iyy == c.iyy && izz == c.izz && velocity == c.velocity
    {
      mass, xcg, ycg, zcg := c.mass, c.xcg, c.ycg, c.zcg;
      ixx, iyy, izz, velocity := c.ixx, c.iyy, c.izz, c.velocity;
    }

    /** The last seven assignments: the sweep, the thread count, the units and the two flags. */
    method AssignSweep(c: Config)
      modifies this`alpha0, this`alpha1, this`increment, this`threads, this`units, this`polars, this`modes
      ensures alpha0 == c.alpha0 && alpha1 == c.alpha1 && increment == c.increment
      ensures threads == c.threads && units == c.units && polars == c.polars && modes == c.modes
    {
      alpha0, alpha1, increment := c.alpha0, c.alpha1, c.increment;
      threads, units, polars, modes := c.threads, c.units, c.polars, c.modes;
    }

    /** One case per sample of the sweep, each copying the configuration, in sample order. */
    method DeriveCases() returns (r: Result<seq<real>, SweepError>)
      modifies this`cases
      ensures r.Success? <==> SampleCount(alpha0, alpha1, increment).Success?
      ensures r.Failure? ==> r.error == SampleCount(alpha0, alpha1, increment).error && unchanged(this)
      ensures r.Success? ==>
        && r.value == Linspace(alpha0, alpha1, SampleCount(alpha0, alpha1, increment).value)
        && |cases| == |r.value|
        && DistinctCases()
        && forall i | 0 <= i < |cases| ::
             && fresh(cases[i]) && cases[i].Fresh() && CopiesSettings(cases[i])
             && cases[i].alpha == Some(r.value[i])
    {
      var count :- SampleCount(alpha0, alpha1, increment);
      var alphas := Linspace(alpha0, alpha1, count);
      var cs: seq<Case> := [];
      for i := 0 to |alphas|
        invariant |cs| == i
        invariant forall j | 0 <= j < i ::
          && fresh(cs[j]) && cs[j].Fresh() && CopiesSettings(cs[j])
          && cs[j].alpha == Some(alphas[j])
        invariant Distinct(cs)
      {
        var c := new Case(xcg, ycg, zcg, mass, Some(ixx), Some(iyy), Some(izz), Some(velocity),
                          Some(alphas[i]), modes, polars);
        cs := cs + [c];
      }
      cases := cs;
      r := Success(alphas);
    }

    /**
     * analysis, up to the solver call: the command script for one case. The
     * result paths are set only for the analyses the case asks for; a case
     * asking for none fails before anything is set.
     */
    method Analysis(c: Case, plane: Plane, show: real -> string) returns (r: Result<string, AnalysisError>)
      modifies c`modesResultsFile, c`polarsResultsFile
      ensures r.Failure? <==> !c.modes && !c.polars
      ensures r.Failure? ==> unchanged(c)
      ensures var stem := ResultsStem(plane.name, c.AlphaText(show));
        && (r.Success? ==>
              r.value == Script(ScriptPrefix(plane.geomFile, ShowOptText(c.caseFile), units), stem, c.modes, c.polars))
        && c.modesResultsFile == (if c.modes then Some(ModesPath(stem)) else old(c.modesResultsFile))
        && c.polarsResultsFile == (if c.polars then Some(PolarsPath(stem)) else old(c.polarsResultsFile))
    {
      var cmdStr := "load " + plane.geomFile + "\n";
      cmdStr := cmdStr + ("case " + ShowOptText(c.caseFile) + "\n");
      cmdStr := cmdStr + ("mass " + units + "\n");
      cmdStr := cmdStr + "oper\no\nv\n\nx\n";
      var prefix := cmdStr;
      var resultsFile := "results/" + plane.name + "-" + ShowOpt(show, c.alpha) + "deg";
      if !c.modes && !c.polars {
        return Failure(NoAnalysisType);
      }
      if c.modes {
        c.modesResultsFile := Some(resultsFile + ".eig");
        cmdStr := cmdStr + "\nmode\nN\nW\n";
        cmdStr := cmdStr + (c.modesResultsFile.value + "\n\n");
        Assoc(prefix, "\nmode\nN\nW\n", ModesPath(resultsFile) + "\n\n");
      }
      var withModes := cmdStr;
      assert withModes == prefix + (if c.modes then ModeBlock(ModesPath(resultsFile)) else "");
      if c.polars {
        c.polarsResultsFile := Some(resultsFile + ".polars");
        cmdStr := cmdStr + "oper\nx\nst\n";
        cmdStr := cmdStr + (c.polarsResultsFile.value + "\n");
        Assoc(withModes, "oper\nx\nst\n", PolarsPath(resultsFile) + "\n");
      }
      r := Success(cmdStr);
    }

    /** The polar result path and the alpha of every case, in case order. */
    function PolarPaths(): seq<Option<string>>
      reads this, cases
    {
      seq(|cases|, i requires 0 <= i < |cases| reads this, cases => cases[i].polarsResultsFile)
    }

    function ModesPaths(): seq<Option<string>>
      reads this, cases
    {
      seq(|cases|, i requires 0 <= i < |cases| reads this, cases => cases[i].modesResultsFile)
    }

    /**
     * read_aero: one row per case, in case order, each from the case's own
     * polar report; each case gets its five coefficients.
     */
    method ReadAero(files: map<string, string>, num: NumberSyntax) returns (r: Result<seq<PolarRow>, ReadError>)
      requires DistinctCases()
      modifies cases`cl, cases`cd, cases`clb, cases`clp, cases`spiral
      ensures var table := ReadReports(old(PolarPaths()), files, PolarDecoder(num));
        && r.Success? == table.Success?
        && (r.Failure? ==> r.error == table.error)
        && (r.Success? ==> |r.value| == |cases|)
        && (r.Success? ==> forall i | 0 <= i < |cases| ::
              r.value[i] == PolarRowOf(cases[i].alpha, table.value[i]) && HoldsPolar(cases[i], table.value[i]))
    {
      r := ReadAeroWith(files, PolarDecoder(num));
    }

    /** The loop of read_aero, verified for any decoding of a single report. */
    method ReadAeroWith(files: map<string, string>, decode: seq<string> -> Result<Polar, ReportError>)
        returns (r: Result<seq<PolarRow>, ReadError>)
      requires DistinctCases()
      modifies cases`cl, cases`cd, cases`clb, cases`clp, cases`spiral
      ensures var table := ReadReports(old(PolarPaths()), files, decode);
        && r.Success? == table.Success?
        && (r.Failure? ==> r.error == table.error)
        && (r.Success? ==> |r.value| == |cases|)
        && (r.Success? ==> forall i | 0 <= i < |cases| ::
              r.value[i] == PolarRowOf(cases[i].alpha, table.value[i]) && HoldsPolar(cases[i], table.value[i]))
    {
      var cs := cases;
      assert Distinct(cs);
      ghost var paths := PolarPaths();
      var rows: seq<PolarRow> := [];
      ghost var polarsRead: seq<Polar> := [];
      for i := 0 to |cs|
        invariant |paths| == |cs| && forall j | 0 <= j < |cs| :: paths[j] == cs[j].polarsResultsFile
        invariant |rows| == i && |polarsRead| == i
        invariant forall j | 0 <= j < i :: ReadReport(j, paths[j], files, decode) == Success(polarsRead[j])
        invariant forall j | 0 <= j < i :: rows[j] == PolarRowOf(cs[j].alpha, polarsRead[j])
        invariant forall j | 0 <= j < i :: HoldsPolar(cs[j], polarsRead[j])
      {
        var c := cs[i];
        assert forall j | 0 <= j < i :: cs[j] != c;
        var report := ReadPolarOf(c, i, files, decode);
        if report.Failure? {
          ReadReportsFirstFailure(paths, files, decode, i);
          return Failure(report.error);
        }
        var p := report.value;
        rows := rows + [PolarRowOf(c.alpha, p)];
        polarsRead := polarsRead + [p];
      }
      ReadReportsAll(paths, files, decode, polarsRead);
      r := Success(rows);
    }

    /**
     * read_modes: one row per case, in case order, each from the case's own
     * eigenmode report; each case gets its Dutch-roll and roll eigenvalues.
     */
    method ReadModes(files: map<string, string>, num: NumberSyntax) returns (r: Result<seq<ModesRow>, ReadError>)
      requires DistinctCases()
      modifies cases`dutch, cases`roll
      ensures var table := ReadReports(old(ModesPaths()), files, ModesDecoder(num));
        && r.Success? == table.Success?
        && (r.Failure? ==> r.error == table.error)
        && (r.Success? ==> |r.value| == |cases|)
        && (r.Success? ==> forall i | 0 <= i < |cases| ::
              r.value[i] == ModesRowOf(cases[i].alpha, table.value[i]) && HoldsModes(cases[i], table.value[i]))
    {
      r := ReadModesWith(files, ModesDecoder(num));
    }

    /** The loop of read_modes, verified for any decoding of a single report. */
    method ReadModesWith(files: map<string, string>, decode: seq<string> -> Result<Modes, ReportError>)
        returns (r: Result<seq<ModesRow>, ReadError>)
      requires DistinctCases()
      modifies cases`dutch, cases`roll
      ensures var table := ReadReports(old(ModesPaths()), files, decode);
        && r.Success? == table.Success?
        && (r.Failure? ==> r.error == table.error)
        && (r.Success? ==> |r.value| == |cases|)
        && (r.Success? ==> forall i | 0 <= i < |cases| ::
              r.value[i] == ModesRowOf(cases[i].alpha, table.value[i]) && HoldsModes(cases[i], table.value[i]))
    {
      var cs := cases;
      assert Distinct(cs);
      ghost var paths := ModesPaths();
      var rows: seq<ModesRow> := [];
      ghost var modesRead: seq<Modes> := [];
      for i := 0 to |cs|
        invariant |paths| == |cs| && forall j | 0 <= j < |cs| :: paths[j] == cs[j].modesResultsFile
        invariant |rows| == i && |modesRead| == i
        invariant forall j | 0 <= j < i :: ReadReport(j, paths[j], files, decode) == Success(modesRead[j])
        invariant forall j | 0 <= j < i :: rows[j] == ModesRowOf(cs[j].alpha, modesRead[j])
        invariant forall j | 0 <= j < i :: HoldsModes(cs[j], modesRead[j])
      {
        var c := cs[i];
        assert forall j | 0 <= j < i :: cs[j] != c;
        var report := ReadModesOf(c, i, files, decode);
        if report.Failure? {
          ReadReportsFirstFailure(paths, files, decode, i);
          return Failure(report.error);
        }
        var m := report.value;
        rows := rows + [ModesRowOf(c.alpha, m)];
        modesRead := modesRead + [m];
      }
      ReadReportsAll(paths, files, decode, modesRead);
      r := Success(rows);
    }
  }

  /** Aero.__init__ without the directory reset: read the configuration, then derive the cases. */
  method NewAero(configText: string, num: NumberSyntax) returns (r: Result<Aero, InitError>)
    ensures r.Success? <==>
      && ParseConfig(configText, num).Success?
      && var c := ParseConfig(configText, num).value;
         SampleCount(c.alpha0, c.alpha1, c.increment).Success?
    ensures r.Failure? && ParseConfig(configText, num).Failure? ==>
      r.error == BadConfig(ParseConfig(configText, num).error)
    ensures r.Failure? && ParseConfig(configText, num).Success? ==>
      var c := ParseConfig(configText, num).value;
      r.error == BadSweep(SampleCount(c.alpha0, c.alpha1, c.increment).error)
    ensures r.Success? ==>
      var c := ParseConfig(configText, num).value;
      var alphas := Linspace(c.alpha0, c.alpha1, SampleCount(c.alpha0, c.alpha1, c.increment).value);
      && fresh(r.value)
      && r.value.Settings() == c
      && |r.value.cases| == |alphas|
      && r.value.DistinctCases()
      && forall i | 0 <= i < |alphas| ::
           && fresh(r.value.cases[i]) && r.value.cases[i].Fresh()
           && r.value.CopiesSettings(r.value.cases[i])
           && r.value.cases[i].alpha == Some(alphas[i])
  {
    var aero := new Aero();
    var config := aero.ReadConfig(configText, num);
    if config.Failure? {
      return Failure(BadConfig(config.error));
    }
    ghost var c := config.value;
    assert aero.alpha0 == c.alpha0 && aero.alpha1 == c.alpha1 && aero.increment == c.increment;
    var sweep := aero.DeriveCases();
    assert aero.Settings() == c;
    if sweep.Failure? {
      return Failure(BadSweep(sweep.error));
    }
    r := Success(aero);
  }
}
