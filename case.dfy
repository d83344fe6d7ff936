/**
 * Case: one sampled angle of attack. The object is filled in place: its
 * case file path when the case file is written, its result paths when the
 * command script is built, its coefficients when the reports are read.
 * Writing a file is modelled by returning the text it would hold.
 */
module AvlCase {

  import opened Wrappers
  import opened Text
  import opened Numbers

  /** The rule of 45 dashes at the head of every case file. */
  const Separator: string := "---------------" + "---------------" + "---------------"

  /** The values of an aero case file, as already rendered with str(). */
  datatype AeroFields = AeroFields(
    alpha: string, xcg: string, ycg: string, zcg: string, mass: string,
    ixx: string, iyy: string, izz: string, velocity: string)

  /** The values of a stability case file, as already rendered with str(). */
  datatype StabFields = StabFields(xcg: string, ycg: string, zcg: string, mass: string)

  /** `f"cases/{str(alpha)}deg.case"`. */
  function AeroCasePath(alpha: string): (p: string)
    ensures |p| == |alpha| + 14 && p[..6] == "cases/" && p[6..|p| - 8] == alpha && p[|p| - 8..] == "deg.case"
  {
    "cases/" + alpha + "deg.case"
  }

  /** The one path every stability case file is written to. */
  const StabCasePath: string := "cases/tail.case"

  /** Distinct alpha strings give distinct aero case paths. */
  lemma AeroCasePathInjective(a: string, b: string)
    requires AeroCasePath(a) == AeroCasePath(b)
    ensures a == b
  {
    var p := AeroCasePath(a);
    assert a == p[6..|p| - 8];
    assert b == AeroCasePath(b)[6..|p| - 8];
  }

  /** No aero case path is the stability case path. */
  lemma AeroCasePathNotStab(a: string)
    ensures AeroCasePath(a) != StabCasePath
  {
    var p := AeroCasePath(a);
    assert p[|p| - 8..] == "deg.case";
    assert StabCasePath[|StabCasePath| - 8..] == "ail.case";
    assert p[|p| - 8] == 'd';
    assert StabCasePath[|StabCasePath| - 8] == 'a';
  }

  // ---------------------------------------------------------------------
  // The case files, line by line

  /** The four lines both case files open with: a blank line, the rule, the run title, a blank line. */
  const CaseHeader: seq<Slot> := [
    Slot("", ""),
    Slot(Separator, ""),
    Slot("Run case  1:", ""),
    Slot("", "")
  ]

  const HeaderValues: seq<string> := ["", "", "", ""]

  const AeroBody: seq<Slot> := [
    Slot("alpha -> alpha = ", ""),
    Slot("X_cg=", " Lunit"),
    Slot("Y_cg=", " Lunit"),
    Slot("Z_cg=", " Lunit"),
    Slot("mass=", " kg")
  ]

  const AeroInertia: seq<Slot> := [
    Slot("Ixx=", " kg-m^2"),
    Slot("Iyy=", " kg-m^2"),
    Slot("Izz=", " kg-m^2"),
    Slot("velocity=", " m/s")
  ]

  /** The two fixed environment lines that close an aero case file. */
  const AeroFooter: seq<Slot> := [
    Slot("density=1.225 kg-m^3", ""),
    Slot("grav.acc.=0.98 m/s^2", "")
  ]

  const FooterValues: seq<string> := ["", ""]

  /** The fifteen lines of an aero case file. */
  const AeroLayout: seq<Slot> := CaseHeader + AeroBody + AeroInertia + AeroFooter

  function AeroBodyValues(f: AeroFields): seq<string> {
    [f.alpha, f.xcg, f.ycg, f.zcg, f.mass]
  }

  function AeroInertiaValues(f: AeroFields): seq<string> {
    [f.ixx, f.iyy, f.izz, f.velocity]
  }

  /** What goes into each line of an aero case file; the fixed lines take "". */
  function AeroValues(f: AeroFields): (vs: seq<string>)
    ensures |vs| == |AeroLayout|
  {
    HeaderValues + AeroBodyValues(f) + AeroInertiaValues(f) + FooterValues
  }

  const StabBody: seq<Slot> := [
    Slot("X_cg=", " Lunit"),
    Slot("Y_cg=", " Lunit"),
    Slot("Z_cg=", " Lunit"),
    Slot("mass=", " kg")
  ]

  /** The eight lines of a stability case file. */
  const StabLayout: seq<Slot> := CaseHeader + StabBody

  function StabBodyValues(f: StabFields): seq<string> {
    [f.xcg, f.ycg, f.zcg, f.mass]
  }

  function StabValues(f: StabFields): (vs: seq<string>)
    ensures |vs| == |StabLayout|
  {
    HeaderValues + StabBodyValues(f)
  }

  /** The text of an aero case file holding the rendered values `f`. */
  function AeroCaseText(f: AeroFields): string {
    Concat(Fill(AeroLayout, AeroValues(f)))
  }

  /** The text of a stability case file holding the rendered values `f`. */
  function StabCaseText(f: StabFields): string {
    Concat(Fill(StabLayout, StabValues(f)))
  }

  /** Values that keep the case file one value per line. */
  predicate AeroPrintable(f: AeroFields) {
    && NoNewline(f.alpha) && NoNewline(f.xcg) && NoNewline(f.ycg) && NoNewline(f.zcg)
    && NoNewline(f.mass) && NoNewline(f.ixx) && NoNewline(f.iyy) && NoNewline(f.izz)
    && NoNewline(f.velocity)
  }

  predicate StabPrintable(f: StabFields) {
    NoNewline(f.xcg) && NoNewline(f.ycg) && NoNewline(f.zcg) && NoNewline(f.mass)
  }

  // ---------------------------------------------------------------------
  // The lines spelled out

  /** A filled line, with the closing line break written into the text after the value. */
  lemma LineOf(pre: string, v: string, post: string, postNl: string)
    requires postNl == post + "\n"
    ensures FillSlot(Slot(pre, post), v) == pre + v + postNl
  {
  }

  /** A line with no value and no text after it. */
  lemma FixedLine(pre: string, line: string)
    requires line == pre + "\n"
    ensures FillSlot(Slot(pre, ""), "") == line
  {
    assert pre + "" + "" == pre;
  }

  lemma CaseHeaderLines()
    ensures Fill(CaseHeader, HeaderValues) == ["\n", Separator + "\n", "Run case  1:\n", "\n"]
  {
    var h := Fill(CaseHeader, HeaderValues);
    assert h[0] == "\n";
    assert h[1] == Separator + "\n";
    assert h[2] == "Run case  1:\n";
    assert h[3] == "\n";
  }

  lemma AeroBodyLines(f: AeroFields)
    ensures Fill(AeroBody, AeroBodyValues(f)) == [
      "alpha -> alpha = " + f.alpha + "\n",
      "X_cg=" + f.xcg + " Lunit\n",
      "Y_cg=" + f.ycg + " Lunit\n",
      "Z_cg=" + f.zcg + " Lunit\n",
      "mass=" + f.mass + " kg\n"]
  {
    var ls := Fill(AeroBody, AeroBodyValues(f));
    LineOf("alpha -> alpha = ", f.alpha, "", "\n");
    LineOf("X_cg=", f.xcg, " Lunit", " Lunit\n");
    LineOf("Y_cg=", f.ycg, " Lunit", " Lunit\n");
    LineOf("Z_cg=", f.zcg, " Lunit", " Lunit\n");
    LineOf("mass=", f.mass, " kg", " kg\n");
    assert ls[0] == FillSlot(AeroBody[0], f.alpha);
    assert ls[1] == FillSlot(AeroBody[1], f.xcg);
    assert ls[2] == FillSlot(AeroBody[2], f.ycg);
    assert ls[3] == FillSlot(AeroBody[3], f.zcg);
    assert ls[4] == FillSlot(AeroBody[4], f.mass);
  }

  lemma AeroInertiaLines(f: AeroFields)
    ensures Fill(AeroInertia, AeroInertiaValues(f)) == [
      "Ixx=" + f.ixx + " kg-m^2\n",
      "Iyy=" + f.iyy + " kg-m^2\n",
      "Izz=" + f.izz + " kg-m^2\n",
      "velocity=" + f.velocity + " m/s\n"]
  {
    var ls := Fill(AeroInertia, AeroInertiaValues(f));
    LineOf("Ixx=", f.ixx, " kg-m^2", " kg-m^2\n");
    LineOf("Iyy=", f.iyy, " kg-m^2", " kg-m^2\n");
    LineOf("Izz=", f.izz, " kg-m^2", " kg-m^2\n");
    LineOf("velocity=", f.velocity, " m/s", " m/s\n");
    assert ls[0] == FillSlot(AeroInertia[0], f.ixx);
    assert ls[1] == FillSlot(AeroInertia[1], f.iyy);
    assert ls[2] == FillSlot(AeroInertia[2], f.izz);
    assert ls[3] == FillSlot(AeroInertia[3], f.velocity);
  }

  lemma AeroFooterLines()
    ensures Fill(AeroFooter, FooterValues) == ["density=1.225 kg-m^3\n", "grav.acc.=0.98 m/s^2\n"]
  {
    var ls := Fill(AeroFooter, FooterValues);
    FixedLine("density=1.225 kg-m^3", "density=1.225 kg-m^3\n");
    FixedLine("grav.acc.=0.98 m/s^2", "grav.acc.=0.98 m/s^2\n");
    assert ls[0] == FillSlot(AeroFooter[0], "");
    assert ls[1] == FillSlot(AeroFooter[1], "");
  }

  lemma StabBodyLines(f: StabFields)
    ensures Fill(StabBody, StabBodyValues(f)) == [
      "X_cg=" + f.xcg + " Lunit\n",
      "Y_cg=" + f.ycg + " Lunit\n",
      "Z_cg=" + f.zcg + " Lunit\n",
      "mass=" + f.mass + " kg\n"]
  {
    var ls := Fill(StabBody, StabBodyValues(f));
    LineOf("X_cg=", f.xcg, " Lunit", " Lunit\n");
    LineOf("Y_cg=", f.ycg, " Lunit", " Lunit\n");
    LineOf("Z_cg=", f.zcg, " Lunit", " Lunit\n");
    LineOf("mass=", f.mass, " kg", " kg\n");
    assert ls[0] == FillSlot(StabBody[0], f.xcg);
    assert ls[1] == FillSlot(StabBody[1], f.ycg);
    assert ls[2] == FillSlot(StabBody[2], f.zcg);
    assert ls[3] == FillSlot(StabBody[3], f.mass);
  }

  /** The text both case files open with. */
  function HeaderText(): string {
    "\n" + Separator + "\n" + "Run case  1:\n\n"
  }

  lemma HeaderTextIsFilled()
    ensures Concat(Fill(CaseHeader, HeaderValues)) == HeaderText()
  {
    CaseHeaderLines();
    Concat4("\n", Separator + "\n", "Run case  1:\n", "\n");
    assert "Run case  1:\n" + "\n" == "Run case  1:\n\n";
    Regroup4("\n", Separator, "\n", "Run case  1:\n", "\n");
  }

  // Solver hint: an associativity instance that keeps the concatenation proof cheap.
  lemma Regroup4(a: string, b: string, c: string, d: string, e: string)
    ensures a + (b + c) + d + e == a + b + c + (d + e)
  {
  }

  /** The aero layout filled with `f`, group by group. */
  lemma AeroFill(f: AeroFields)
    ensures Fill(AeroLayout, AeroValues(f)) ==
      Fill(CaseHeader, HeaderValues) + Fill(AeroBody, AeroBodyValues(f))
      + Fill(AeroInertia, AeroInertiaValues(f)) + Fill(AeroFooter, FooterValues)
  {
    FillAppend(CaseHeader, AeroBody, HeaderValues, AeroBodyValues(f));
    FillAppend(CaseHeader + AeroBody, AeroInertia, HeaderValues + AeroBodyValues(f), AeroInertiaValues(f));
    FillAppend(CaseHeader + AeroBody + AeroInertia, AeroFooter,
               HeaderValues + AeroBodyValues(f) + AeroInertiaValues(f), FooterValues);
  }

  /** The stability layout filled with `f`, group by group. */
  lemma StabFill(f: StabFields)
    ensures Fill(StabLayout, StabValues(f)) == Fill(CaseHeader, HeaderValues) + Fill(StabBody, StabBodyValues(f))
  {
    FillAppend(CaseHeader, StabBody, HeaderValues, StabBodyValues(f));
  }

  /** The aero case text spelled out the way write_aero_case assembles it. */
  lemma AeroCaseTextSpelled(f: AeroFields)
    ensures AeroCaseText(f) ==
      HeaderText()
      + ("alpha -> alpha = " + f.alpha + "\n")
      + ("X_cg=" + f.xcg + " Lunit\n")
      + ("Y_cg=" + f.ycg + " Lunit\n")
      + ("Z_cg=" + f.zcg + " Lunit\n")
      + ("mass=" + f.mass + " kg\n")
      + ("Ixx=" + f.ixx + " kg-m^2\n")
      + ("Iyy=" + f.iyy + " kg-m^2\n")
      + ("Izz=" + f.izz + " kg-m^2\n")
      + ("velocity=" + f.velocity + " m/s\n")
      + "density=1.225 kg-m^3\n"
      + "grav.acc.=0.98 m/s^2\n"
  {
    var h := Fill(CaseHeader, HeaderValues);
    var b := Fill(AeroBody, AeroBodyValues(f));
    var i := Fill(AeroInertia, AeroInertiaValues(f));
    var t := Fill(AeroFooter, FooterValues);
    AeroFill(f);
    ConcatAppend(h, b);
    ConcatAppend(h + b, i);
    ConcatAppend(h + b + i, t);
    HeaderTextIsFilled();
    AeroBodyLines(f);
    Concat5(b[0], b[1], b[2], b[3], b[4]);
    AeroInertiaLines(f);
    Concat4(i[0], i[1], i[2], i[3]);
    AeroFooterLines();
    Concat2(t[0], t[1]);
    RegroupAero(HeaderText(), b[0], b[1], b[2], b[3], b[4], i[0], i[1], i[2], i[3], t[0], t[1]);
  }

  // Solver hint: an associativity instance that keeps the concatenation proof cheap.
  lemma RegroupAero(h: string, a: string, b: string, c: string, d: string, e: string,
                    f: string, g: string, i: string, j: string, k: string, m: string)
    ensures h + (a + b + c + d + e) + (f + g + i + j) + (k + m)
         == h + a + b + c + d + e + f + g + i + j + k + m
  {
  }

  /** The stability case text spelled out the way write_stab_case assembles it. */
  lemma StabCaseTextSpelled(f: StabFields)
    ensures StabCaseText(f) ==
      HeaderText()
      + ("X_cg=" + f.xcg + " Lunit\n")
      + ("Y_cg=" + f.ycg + " Lunit\n")
      + ("Z_cg=" + f.zcg + " Lunit\n")
      + ("mass=" + f.mass + " kg\n")
  {
    var h := Fill(CaseHeader, HeaderValues);
    var b := Fill(StabBody, StabBodyValues(f));
    StabFill(f);
    ConcatAppend(h, b);
    HeaderTextIsFilled();
    StabBodyLines(f);
    Concat4(b[0], b[1], b[2], b[3]);
    RegroupStab(HeaderText(), b[0], b[1], b[2], b[3]);
  }

  // Solver hint: an associativity instance that keeps the concatenation proof cheap.
  lemma RegroupStab(h: string, a: string, b: string, c: string, d: string)
    ensures h + (a + b + c + d) == h + a + b + c + d
  {
  }

  // ---------------------------------------------------------------------
  // Reading a case file back

  /** Re-parses an aero case file: the rendered values, or None when the text is not one. */
  function DecodeAeroCase(text: string): Option<AeroFields> {
    match Unfill(AeroLayout, text)
    case None => None
    case Some(vs) =>
      if vs[0] == "" && vs[1] == "" && vs[2] == "" && vs[3] == "" && vs[13] == "" && vs[14] == ""
      then Some(AeroFields(vs[4], vs[5], vs[6], vs[7], vs[8], vs[9], vs[10], vs[11], vs[12]))
      else None
  }

  /** Re-parses a stability case file. */
  function DecodeStabCase(text: string): Option<StabFields> {
    match Unfill(StabLayout, text)
    case None => None
    case Some(vs) =>
      if vs[0] == "" && vs[1] == "" && vs[2] == "" && vs[3] == ""
      then Some(StabFields(vs[4], vs[5], vs[6], vs[7]))
      else None
  }

  // The per-index case splits in the *Valid lemmas below are solver hints:
  // with empty bodies these lemmas run past the resource limit.

  lemma CaseHeaderValid()
    ensures ValidLayout(CaseHeader)
  {
    forall i | 0 <= i < |CaseHeader| ensures ValidSlot(CaseHeader[i]) {
      if i == 0 {} else if i == 1 {} else if i == 2 {} else {}
    }
  }

  lemma AeroBodyValid()
    ensures ValidLayout(AeroBody)
  {
    forall i | 0 <= i < |AeroBody| ensures ValidSlot(AeroBody[i]) {
      if i == 0 {} else if i == 1 {} else if i == 2 {} else if i == 3 {} else {}
    }
  }

  lemma AeroInertiaValid()
    ensures ValidLayout(AeroInertia)
  {
    forall i | 0 <= i < |AeroInertia| ensures ValidSlot(AeroInertia[i]) {
      if i == 0 {} else if i == 1 {} else if i == 2 {} else {}
    }
  }

  lemma AeroFooterValid()
    ensures ValidLayout(AeroFooter)
  {
    assert NoNewline(AeroFooter[0].pre) by {
      var t := AeroFooter[0].pre;
      assert forall i | 0 <= i < |t| :: t[i] != '\n';
    }
    assert NoNewline(AeroFooter[1].pre) by {
      var t := AeroFooter[1].pre;
      assert forall i | 0 <= i < |t| :: t[i] != '\n';
    }
    forall i | 0 <= i < |AeroFooter| ensures ValidSlot(AeroFooter[i]) {
      if i == 0 {} else {}
    }
  }

  lemma StabBodyValid()
    ensures ValidLayout(StabBody)
  {
    forall i | 0 <= i < |StabBody| ensures ValidSlot(StabBody[i]) {
      if i == 0 {} else if i == 1 {} else if i == 2 {} else {}
    }
  }

  /** No fixed text of the aero case file holds a line break. */
  lemma AeroLayoutValid()
    ensures ValidLayout(AeroLayout)
  {
    CaseHeaderValid();
    AeroBodyValid();
    AeroInertiaValid();
    AeroFooterValid();
    ValidLayoutAppend(CaseHeader, AeroBody);
    ValidLayoutAppend(CaseHeader + AeroBody, AeroInertia);
    ValidLayoutAppend(CaseHeader + AeroBody + AeroInertia, AeroFooter);
  }

  /** No fixed text of the stability case file holds a line break. */
  lemma StabLayoutValid()
    ensures ValidLayout(StabLayout)
  {
    CaseHeaderValid();
    StabBodyValid();
    ValidLayoutAppend(CaseHeader, StabBody);
  }

  lemma AeroValuesAt(f: AeroFields)
    ensures var vs := AeroValues(f);
      && |vs| == 15
      && vs[0] == "" && vs[1] == "" && vs[2] == "" && vs[3] == ""
      && vs[4] == f.alpha && vs[5] == f.xcg && vs[6] == f.ycg && vs[7] == f.zcg && vs[8] == f.mass
      && vs[9] == f.ixx && vs[10] == f.iyy && vs[11] == f.izz && vs[12] == f.velocity
      && vs[13] == "" && vs[14] == ""
  {
  }

  lemma StabValuesAt(f: StabFields)
    ensures var vs := StabValues(f);
      && |vs| == 8
      && vs[0] == "" && vs[1] == "" && vs[2] == "" && vs[3] == ""
      && vs[4] == f.xcg && vs[5] == f.ycg && vs[6] == f.zcg && vs[7] == f.mass
  {
  }

  lemma AeroValuesPrintable(f: AeroFields)
    requires AeroPrintable(f)
    ensures forall i | 0 <= i < |AeroValues(f)| :: NoNewline(AeroValues(f)[i])
  {
    var vs := AeroValues(f);
    forall i | 0 <= i < |vs| ensures NoNewline(vs[i]) {
      if i < 4 || 13 <= i {
        assert vs[i] == "";
      }
    }
  }

  /** The values the aero reader accepts are the values of the fields it builds from them. */
  lemma AeroValuesOfDecoded(vs: seq<string>)
    requires |vs| == 15
    requires vs[0] == "" && vs[1] == "" && vs[2] == "" && vs[3] == "" && vs[13] == "" && vs[14] == ""
    ensures vs == AeroValues(AeroFields(vs[4], vs[5], vs[6], vs[7], vs[8], vs[9], vs[10], vs[11], vs[12]))
  {
    var f := AeroFields(vs[4], vs[5], vs[6], vs[7], vs[8], vs[9], vs[10], vs[11], vs[12]);
    AeroValuesAt(f);
    var g := AeroValues(f);
    forall i | 0 <= i < |vs| ensures vs[i] == g[i] {
      if i < 4 {} else if i < 9 {} else if i < 13 {} else {}
    }
  }

  /** The values the stability reader accepts are the values of the fields it builds from them. */
  lemma StabValuesOfDecoded(vs: seq<string>)
    requires |vs| == 8
    requires vs[0] == "" && vs[1] == "" && vs[2] == "" && vs[3] == ""
    ensures vs == StabValues(StabFields(vs[4], vs[5], vs[6], vs[7]))
  {
    var f := StabFields(vs[4], vs[5], vs[6], vs[7]);
    StabValuesAt(f);
    var g := StabValues(f);
    forall i | 0 <= i < |vs| ensures vs[i] == g[i] {
      if i < 4 {} else {}
    }
  }

  /** Re-parsing a written aero case file gives back every value that was written. */
  lemma AeroCaseRoundTrip(f: AeroFields)
    requires AeroPrintable(f)
    ensures DecodeAeroCase(AeroCaseText(f)) == Some(f)
  {
    var vs := AeroValues(f);
    AeroValuesAt(f);
    AeroLayoutValid();
    AeroValuesPrintable(f);
    UnfillFill(AeroLayout, vs);
    assert Unfill(AeroLayout, AeroCaseText(f)) == Some(vs);
  }

  /** The aero case reader accepts nothing but texts the writer produces. */
  lemma AeroCaseDecodeExact(text: string)
    requires DecodeAeroCase(text).Some?
    ensures AeroCaseText(DecodeAeroCase(text).value) == text
  {
    var vs :| Unfill(AeroLayout, text) == Some(vs);
    var f := AeroFields(vs[4], vs[5], vs[6], vs[7], vs[8], vs[9], vs[10], vs[11], vs[12]);
    assert DecodeAeroCase(text) == Some(f);
    AeroValuesOfDecoded(vs);
    FillUnfill(AeroLayout, text);
  }

  /** Re-parsing a written stability case file gives back every value that was written. */
  lemma StabCaseRoundTrip(f: StabFields)
    requires StabPrintable(f)
    ensures DecodeStabCase(StabCaseText(f)) == Some(f)
  {
    StabLayoutValid();
    var vs := StabValues(f);
    StabValuesAt(f);
    forall i | 0 <= i < |vs| ensures NoNewline(vs[i]) {
      if i < 4 {
        assert vs[i] == "";
      }
    }
    UnfillFill(StabLayout, vs);
    assert Unfill(StabLayout, StabCaseText(f)) == Some(vs);
  }

  /** The stability case reader accepts nothing but texts the writer produces. */
  lemma StabCaseDecodeExact(text: string)
    requires DecodeStabCase(text).Some?
    ensures StabCaseText(DecodeStabCase(text).value) == text
  {
    var vs :| Unfill(StabLayout, text) == Some(vs);
    var f := StabFields(vs[4], vs[5], vs[6], vs[7]);
    assert DecodeStabCase(text) == Some(f);
    StabValuesOfDecoded(vs);
    FillUnfill(StabLayout, text);
  }

  // ---------------------------------------------------------------------
  // The Case object

  class Case {
    var xcg: real
    var ycg: real
    var zcg: real
    var mass: real
    var ixx: Option<real>
    var iyy: Option<real>
    var izz: Option<real>
    var velocity: Option<real>
    var alpha: Option<real>
    var modes: bool
    var polars: bool
    var caseFile: Option<string>
    var modesResultsFile: Option<string>
    var polarsResultsFile: Option<string>
    var cl: Option<real>
    var cd: Option<real>
    var clb: Option<real>
    var clp: Option<real>
    var spiral: Option<real>
    var dutch: Option<seq<real>>
    var roll: Option<seq<real>>

    /** Nothing has been derived for this case yet. */
    predicate Fresh()
      reads this
    {
      && caseFile == None && modesResultsFile == None && polarsResultsFile == None
      && cl == None && cd == None && clb == None && clp == None && spiral == None
      && dutch == None && roll == None
    }

    constructor (xcg: real, ycg: real, zcg: real, mass: real,
                 ixx: Option<real> := None, iyy: Option<real> := None, izz: Option<real> := None,
                 velocity: Option<real> := None, alpha: Option<real> := None,
                 modes: bool := false, polars: bool := false)
      ensures this.xcg == xcg && this.ycg == ycg && this.zcg == zcg && this.mass == mass
      ensures this.ixx == ixx && this.iyy == iyy && this.izz == izz
      ensures this.velocity == velocity && this.alpha == alpha
      ensures this.modes == modes && this.polars == polars
      ensures Fresh()
    {
      this.xcg, this.ycg, this.zcg, this.mass := xcg, ycg, zcg, mass;
      this.ixx, this.iyy, this.izz := ixx, iyy, izz;
      this.velocity, this.alpha := velocity, alpha;
      this.modes, this.polars := modes, polars;
      caseFile, modesResultsFile, polarsResultsFile := None, None, None;
      cl, cd, clb, clp, spiral := None, None, None, None, None;
      dutch, roll := None, None;
    }

    /** `str(self.alpha)`. */
    function AlphaText(show: real -> string): string
      reads this
    {
      ShowOpt(show, alpha)
    }

    /** The values this case puts into its aero case file. */
    function AeroView(show: real -> string): AeroFields
      reads this
    {
      AeroFields(AlphaText(show), show(xcg), show(ycg), show(zcg), show(mass),
                 ShowOpt(show, ixx), ShowOpt(show, iyy), ShowOpt(show, izz), ShowOpt(show, velocity))
    }

    /** The values this case puts into a stability case file. */
    function StabView(show: real -> string): StabFields
      reads this
    {
      StabFields(show(xcg), show(ycg), show(zcg), show(mass))
    }

    /** write_aero_case: the file text, and `case_file` set to the path it goes to. */
    method WriteAeroCase(show: real -> string) returns (text: string)
      modifies this`caseFile
      ensures text == AeroCaseText(AeroView(show))
      ensures caseFile == Some(AeroCasePath(AlphaText(show)))
    {
      var caseStr := "\n" + Separator + "\n";
      caseStr := caseStr + "Run case  1:\n\n";
      caseStr := caseStr + ("alpha -> alpha = " + ShowOpt(show, alpha) + "\n");
      caseStr := caseStr + ("X_cg=" + show(xcg) + " Lunit\n");
      caseStr := caseStr + ("Y_cg=" + show(ycg) + " Lunit\n");
      caseStr := caseStr + ("Z_cg=" + show(zcg) + " Lunit\n");
      caseStr := caseStr + ("mass=" + show(mass) + " kg\n");
      caseStr := caseStr + ("Ixx=" + ShowOpt(show, ixx) + " kg-m^2\n");
      caseStr := caseStr + ("Iyy=" + ShowOpt(show, iyy) + " kg-m^2\n");
      caseStr := caseStr + ("Izz=" + ShowOpt(show, izz) + " kg-m^2\n");
      caseStr := caseStr + ("velocity=" + ShowOpt(show, velocity) + " m/s\n");
      caseStr := caseStr + "density=1.225 kg-m^3\n";
      caseStr := caseStr + "grav.acc.=0.98 m/s^2\n";
      AeroCaseTextSpelled(AeroView(show));
      var path := "cases/" + ShowOpt(show, alpha) + "deg.case";
      text := caseStr;
      caseFile := Some(path);
    }

    /** write_stab_case: the file text, and `case_file` set to the fixed stability path. */
    method WriteStabCase(show: real -> string) returns (text: string)
      modifies this`caseFile
      ensures text == StabCaseText(StabView(show))
      ensures caseFile == Some(StabCasePath)
    {
      var caseStr := "\n" + Separator + "\n";
      caseStr := caseStr + "Run case  1:\n\n";
      caseStr := caseStr + ("X_cg=" + show(xcg) + " Lunit\n");
      caseStr := caseStr + ("Y_cg=" + show(ycg) + " Lunit\n");
      caseStr := caseStr + ("Z_cg=" + show(zcg) + " Lunit\n");
      caseStr := caseStr + ("mass=" + show(mass) + " kg\n");
      StabCaseTextSpelled(StabView(show));
      var path := "cases/tail.case";
      text := caseStr;
      caseFile := Some(path);
    }
  }
}
