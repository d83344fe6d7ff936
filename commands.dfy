/**
 * The command script Aero.analysis pipes into the solver, and the paths of
 * the result files it asks the solver to save.
 */
module AvlCommands {

  import opened AvlCase

  /** `f"results/{plane.name}-{str(case.alpha)}deg"`: the stem both result files share. */
  function ResultsStem(name: string, alpha: string): (s: string)
    ensures |s| == |name| + |alpha| + 12 && s[..8] == "results/" && s[|s| - 3..] == "deg"
    ensures s[8..|s| - 3] == name + "-" + alpha
  {
    "results/" + name + "-" + alpha + "deg"
  }

  /** The eigenmode results file. */
  function ModesPath(stem: string): (p: string)
    ensures |p| == |stem| + 4 && p[..|stem|] == stem && p[|stem|..] == ".eig"
  {
    stem + ".eig"
  }

  /** The polar (stability derivatives) results file. */
  function PolarsPath(stem: string): (p: string)
    ensures |p| == |stem| + 7 && p[..|stem|] == stem && p[|stem|..] == ".polars"
  {
    stem + ".polars"
  }

  /** Load the geometry and the case, set the mass units, then run the trim case once. */
  function ScriptPrefix(geomFile: string, caseFile: string, units: string): string {
    ("load " + geomFile + "\n")
    + ("case " + caseFile + "\n")
    + ("mass " + units + "\n")
    + "oper\no\nv\n\nx\n"
  }

  /** Eigenmode analysis, written to `eig`. */
  function ModeBlock(eig: string): string {
    "\nmode\nN\nW\n" + (eig + "\n\n")
  }

  /** Stability derivatives, written to `polars`. */
  function PolarBlock(polars: string): string {
    "oper\nx\nst\n" + (polars + "\n")
  }

  /** The script for a case: the prefix, then the mode block if asked for, then the polar block if asked for. */
  function Script(prefix: string, stem: string, modes: bool, polars: bool): string {
    prefix
    + (if modes then ModeBlock(ModesPath(stem)) else "")
    + (if polars then PolarBlock(PolarsPath(stem)) else "")
  }

  // ---------------------------------------------------------------------
  // Properties of the script

  /** Every script starts with the prefix. */
  lemma ScriptStartsWithPrefix(prefix: string, stem: string, modes: bool, polars: bool)
    ensures |prefix| <= |Script(prefix, stem, modes, polars)|
    ensures Script(prefix, stem, modes, polars)[..|prefix|] == prefix
  {
    var mb := if modes then ModeBlock(ModesPath(stem)) else "";
    var pb := if polars then PolarBlock(PolarsPath(stem)) else "";
    assert Script(prefix, stem, modes, polars) == prefix + mb + pb;
    PrefixOfConcat(prefix, mb + pb);
  }

  lemma PrefixOfConcat(a: string, b: string)
    ensures |a| <= |a + b| && (a + b)[..|a|] == a
  {
  }

  /** What follows the prefix: the mode block first when it is there, then the polar block. */
  lemma ScriptBlocks(prefix: string, stem: string, modes: bool, polars: bool)
    ensures var s := Script(prefix, stem, modes, polars);
      var m := if modes then |ModeBlock(ModesPath(stem))| else 0;
      && |s| == |prefix| + m + (if polars then |PolarBlock(PolarsPath(stem))| else 0)
      && (modes ==> s[|prefix|..|prefix| + m] == ModeBlock(ModesPath(stem)))
      && (polars ==> s[|prefix| + m..] == PolarBlock(PolarsPath(stem)))
  {
    var s := Script(prefix, stem, modes, polars);
    var mb := if modes then ModeBlock(ModesPath(stem)) else "";
    var pb := if polars then PolarBlock(PolarsPath(stem)) else "";
    assert s == prefix + mb + pb;
    assert s[|prefix|..|prefix| + |mb|] == mb;
    assert s[|prefix| + |mb|..] == pb;
  }

  lemma BlockLengths(stem: string)
    ensures |ModeBlock(ModesPath(stem))| == |stem| + 16
    ensures |PolarBlock(PolarsPath(stem))| == |stem| + 18
  {
  }

  /** The script tells which analyses were asked for: no two flag settings give the same script. */
  lemma ScriptDeterminesFlags(prefix: string, stem: string, m1: bool, p1: bool, m2: bool, p2: bool)
    requires Script(prefix, stem, m1, p1) == Script(prefix, stem, m2, p2)
    ensures m1 == m2 && p1 == p2
  {
    BlockLengths(stem);
    ScriptBlocks(prefix, stem, m1, p1);
    ScriptBlocks(prefix, stem, m2, p2);
  }

  // ---------------------------------------------------------------------
  // Properties of the paths

  /** For one plane, distinct alpha strings give distinct eigenmode files. */
  lemma ModesPathInjective(name: string, a: string, b: string)
    requires ModesPath(ResultsStem(name, a)) == ModesPath(ResultsStem(name, b))
    ensures a == b
  {
    var p := ModesPath(ResultsStem(name, a));
    var q := ModesPath(ResultsStem(name, b));
    var start := |"results/" + name + "-"|;
    assert a == p[start..|p| - 7];
    assert b == q[start..|q| - 7];
  }

  /** For one plane, distinct alpha strings give distinct polar files. */
  lemma PolarsPathInjective(name: string, a: string, b: string)
    requires PolarsPath(ResultsStem(name, a)) == PolarsPath(ResultsStem(name, b))
    ensures a == b
  {
    var p := PolarsPath(ResultsStem(name, a));
    var q := PolarsPath(ResultsStem(name, b));
    var start := |"results/" + name + "-"|;
    assert a == p[start..|p| - 10];
    assert b == q[start..|q| - 10];
  }

  /** An eigenmode file is never a polar file, whatever the stems. */
  lemma ModesPathNotPolarsPath(s: string, t: string)
    ensures ModesPath(s) != PolarsPath(t)
  {
    var p, q := ModesPath(s), PolarsPath(t);
    assert p[|p| - 1] == 'g';
    assert q[|q| - 1] == 's';
  }

  /** Result files and case files live in different directories. */
  lemma ResultsApartFromCases(name: string, a: string, b: string)
    ensures ModesPath(ResultsStem(name, a)) != AeroCasePath(b)
    ensures PolarsPath(ResultsStem(name, a)) != AeroCasePath(b)
    ensures ModesPath(ResultsStem(name, a)) != StabCasePath
    ensures PolarsPath(ResultsStem(name, a)) != StabCasePath
  {
    var m, p, c := ModesPath(ResultsStem(name, a)), PolarsPath(ResultsStem(name, a)), AeroCasePath(b);
    assert m[0] == 'r' && p[0] == 'r' && c[0] == 'c' && StabCasePath[0] == 'c';
  }
}
