/**
 * Decoding the solver's report files by position. A report is read with
 * readlines(), then single whitespace-separated tokens are picked at fixed
 * line and column numbers.
 */
module AvlReports {

  import opened Wrappers
  import opened Text
  import opened Numbers

  /** Why a report cannot be decoded: IndexError for a short file or line, ValueError for a bad number. */
  datatype ReportError =
    | MissingLine(line: nat)
    | MissingToken(line: nat, column: nat)
    | NotANumber(line: nat, column: nat)

  /** float(lines[line].split()[column]). */
  function Pick(lines: seq<string>, line: nat, column: nat, num: NumberSyntax): (r: Result<real, ReportError>)
    ensures r.Success? <==>
      line < |lines| && column < |Tokens(lines[line])| && num.parseFloat(Tokens(lines[line])[column]).Some?
    ensures r.Success? ==> num.parseFloat(Tokens(lines[line])[column]) == Some(r.value)
    ensures r.Failure? ==> r.error.line == line
    ensures r == Failure(MissingLine(line)) <==> |lines| <= line
  {
    if |lines| <= line then Failure(MissingLine(line))
    else
      var ts := Tokens(lines[line]);
      if |ts| <= column then Failure(MissingToken(line, column))
      else
        match num.parseFloat(ts[column])
        case None => Failure(NotANumber(line, column))
        case Some(x) => Success(x)
  }

  predicate FailsWith<T>(p: Result<T, ReportError>, e: ReportError) {
    p.Failure? && p.error == e
  }

  // ---------------------------------------------------------------------
  // The polar report

  /** The coefficients read_aero takes from one polar report. */
  datatype Polar = Polar(cl: real, cd: real, clb: real, clp: real, spiral: real)

  const ClAt: (nat, nat) := (23, 2)
  const CdAt: (nat, nat) := (24, 2)
  const ClbAt: (nat, nat) := (38, 8)
  const ClpAt: (nat, nat) := (46, 5)
  const SpiralAt: (nat, nat) := (52, 6)

  function PickAt(lines: seq<string>, at: (nat, nat), num: NumberSyntax): Result<real, ReportError> {
    Pick(lines, at.0, at.1, num)
  }

  /** The five coefficients, read in the order the source reads them; the first failure ends it. */
  function DecodePolar(lines: seq<string>, num: NumberSyntax): (r: Result<Polar, ReportError>)
    ensures r.Success? <==>
      && PickAt(lines, ClAt, num).Success? && PickAt(lines, CdAt, num).Success?
      && PickAt(lines, ClbAt, num).Success? && PickAt(lines, ClpAt, num).Success?
      && PickAt(lines, SpiralAt, num).Success?
    ensures r.Success? ==>
      && Success(r.value.cl) == PickAt(lines, ClAt, num)
      && Success(r.value.cd) == PickAt(lines, CdAt, num)
      && Success(r.value.clb) == PickAt(lines, ClbAt, num)
      && Success(r.value.clp) == PickAt(lines, ClpAt, num)
      && Success(r.value.spiral) == PickAt(lines, SpiralAt, num)
    ensures r.Failure? ==>
      || FailsWith(PickAt(lines, ClAt, num), r.error)
      || (PickAt(lines, ClAt, num).Success? && FailsWith(PickAt(lines, CdAt, num), r.error))
      || (PickAt(lines, ClAt, num).Success? && PickAt(lines, CdAt, num).Success?
          && FailsWith(PickAt(lines, ClbAt, num), r.error))
      || (PickAt(lines, ClAt, num).Success? && PickAt(lines, CdAt, num).Success?
          && PickAt(lines, ClbAt, num).Success? && FailsWith(PickAt(lines, ClpAt, num), r.error))
      || (PickAt(lines, ClAt, num).Success? && PickAt(lines, CdAt, num).Success?
          && PickAt(lines, ClbAt, num).Success? && PickAt(lines, ClpAt, num).Success?
          && FailsWith(PickAt(lines, SpiralAt, num), r.error))
  {
    var cl :- PickAt(lines, ClAt, num);
    var cd :- PickAt(lines, CdAt, num);
    var clb :- PickAt(lines, ClbAt, num);
    var clp :- PickAt(lines, ClpAt, num);
    var spiral :- PickAt(lines, SpiralAt, num);
    Success(Polar(cl, cd, clb, clp, spiral))
  }

  /** A polar report of 52 lines or fewer never decodes. */
  lemma ShortPolarReportFails(lines: seq<string>, num: NumberSyntax)
    requires |lines| <= 52
    ensures DecodePolar(lines, num).Failure?
  {
    assert PickAt(lines, SpiralAt, num) == Failure(MissingLine(52));
  }

  /** A report of 23 lines or fewer fails on its very first pick, with an IndexError for line 23. */
  lemma VeryShortPolarReport(lines: seq<string>, num: NumberSyntax)
    requires |lines| <= 23
    ensures DecodePolar(lines, num) == Failure(MissingLine(23))
  {
  }

  /** A report line written as tokens gives back the token at the picked column. */
  lemma PickWritten(lines: seq<string>, line: nat, column: nat, ws: seq<string>, num: NumberSyntax)
    requires line < |lines| && lines[line] == Unwords(ws)
    requires forall i | 0 <= i < |ws| :: ws[i] != [] && NoSpace(ws[i])
    requires column < |ws|
    ensures Pick(lines, line, column, num) ==
      (match num.parseFloat(ws[column]) case None => Failure(NotANumber(line, column)) case Some(x) => Success(x))
  {
    TokensUnwords(ws);
  }

  // ---------------------------------------------------------------------
  // The eigenmode report

  /** The eigenvalues read_modes keeps: the Dutch-roll and roll modes. */
  datatype Modes = Modes(dutch: seq<real>, roll: seq<real>)

  const DutchLine: nat := 3
  const RollLine: nat := 5

  /** tuple(map(float, ts)): the first token that is not a number raises. */
  function ParseAll(ts: seq<string>, line: nat, first: nat, num: NumberSyntax): (r: Result<seq<real>, ReportError>)
    decreases |ts|
    ensures r.Success? <==> forall k | 0 <= k < |ts| :: num.parseFloat(ts[k]).Some?
    ensures r.Success? ==> |r.value| == |ts| && forall k | 0 <= k < |ts| :: num.parseFloat(ts[k]) == Some(r.value[k])
    ensures r.Failure? ==> exists k | 0 <= k < |ts| ::
      && r.error == NotANumber(line, first + k)
      && num.parseFloat(ts[k]).None?
      && forall j | 0 <= j < k :: num.parseFloat(ts[j]).Some?
  {
    if ts == [] then Success([])
    else
      match num.parseFloat(ts[0])
      case None =>
        Failure(NotANumber(line, first))
      case Some(x) =>
        var rest :- ParseAll(ts[1..], line, first + 1, num);
        assert forall k | 1 <= k < |ts| :: ts[k] == ts[1..][k - 1];
        Success([x] + rest)
  }

  /**
   * tuple(map(float, lines[line].split()[1:])): every token after the label.
   * Only a missing line raises IndexError; otherwise the first token after the
   * label that is not a number raises ValueError.
   */
  function Eigenvalues(lines: seq<string>, line: nat, num: NumberSyntax): (r: Result<seq<real>, ReportError>)
    ensures r == Failure(MissingLine(line)) <==> |lines| <= line
    ensures line < |lines| ==>
      (r.Success? <==> forall k | 1 <= k < |Tokens(lines[line])| :: num.parseFloat(Tokens(lines[line])[k]).Some?)
    ensures r.Success? ==>
      && line < |lines|
      && |r.value| == (if Tokens(lines[line]) == [] then 0 else |Tokens(lines[line])| - 1)
      && forall k | 1 <= k < |Tokens(lines[line])| :: num.parseFloat(Tokens(lines[line])[k]) == Some(r.value[k - 1])
    ensures r.Failure? && line < |lines| ==> exists k | 1 <= k < |Tokens(lines[line])| ::
      && r.error == NotANumber(line, k)
      && num.parseFloat(Tokens(lines[line])[k]).None?
      && forall j | 1 <= j < k :: num.parseFloat(Tokens(lines[line])[j]).Some?
  {
    if |lines| <= line then Failure(MissingLine(line))
    else
      AfterLabel(Tokens(lines[line]), line, num);
      ParseAll(AfterFirst(Tokens(lines[line])), line, 1, num)
  }

  /** Parsing the tokens after the label, counted from the label's position. */
  lemma AfterLabel(ts: seq<string>, line: nat, num: NumberSyntax)
    ensures var r := ParseAll(AfterFirst(ts), line, 1, num);
      && (r.Success? <==> forall k | 1 <= k < |ts| :: num.parseFloat(ts[k]).Some?)
      && (r.Success? ==> forall k | 1 <= k < |ts| :: num.parseFloat(ts[k]) == Some(r.value[k - 1]))
      && (r.Failure? ==> exists k | 1 <= k < |ts| ::
        && r.error == NotANumber(line, k)
        && num.parseFloat(ts[k]).None?
        && forall j | 1 <= j < k :: num.parseFloat(ts[j]).Some?)
  {
    var us := AfterFirst(ts);
    var r := ParseAll(us, line, 1, num);
    if forall k | 0 <= k < |us| :: num.parseFloat(us[k]).Some? {
      forall k | 1 <= k < |ts| ensures num.parseFloat(ts[k]).Some? {
        assert ts[k] == us[k - 1];
      }
    }
    if forall k | 1 <= k < |ts| :: num.parseFloat(ts[k]).Some? {
      forall k | 0 <= k < |us| ensures num.parseFloat(us[k]).Some? {
        assert us[k] == ts[k + 1];
      }
    }
    if r.Failure? {
      var k :| 0 <= k < |us| && r.error == NotANumber(line, 1 + k) && num.parseFloat(us[k]).None?
        && forall j | 0 <= j < k :: num.parseFloat(us[j]).Some?;
      assert us[k] == ts[k + 1];
      forall j | 1 <= j < k + 1 ensures num.parseFloat(ts[j]).Some? {
        assert ts[j] == us[j - 1];
      }
    }
  }

  /** `ts[1:]`: a slice past the end is empty, never an IndexError. */
  function AfterFirst(ts: seq<string>): (r: seq<string>)
    ensures |r| == (if ts == [] then 0 else |ts| - 1)
    ensures forall k | 1 <= k < |ts| :: r[k - 1] == ts[k]
  {
    if ts == [] then [] else ts[1..]
  }

  /** Both eigenvalue lines, Dutch roll first. */
  function DecodeModes(lines: seq<string>, num: NumberSyntax): (r: Result<Modes, ReportError>)
    ensures r.Success? <==> Eigenvalues(lines, DutchLine, num).Success? && Eigenvalues(lines, RollLine, num).Success?
    ensures r.Success? ==>
      && Success(r.value.dutch) == Eigenvalues(lines, DutchLine, num)
      && Success(r.value.roll) == Eigenvalues(lines, RollLine, num)
    ensures r.Failure? ==>
      || FailsWith(Eigenvalues(lines, DutchLine, num), r.error)
      || (Eigenvalues(lines, DutchLine, num).Success? && FailsWith(Eigenvalues(lines, RollLine, num), r.error))
  {
    var dutch :- Eigenvalues(lines, DutchLine, num);
    var roll :- Eigenvalues(lines, RollLine, num);
    Success(Modes(dutch, roll))
  }

  /** The only IndexError read_modes can hit is a report of five lines or fewer. */
  lemma ModesIndexErrorOnlyWhenShort(lines: seq<string>, num: NumberSyntax)
    requires DecodeModes(lines, num).Failure? && DecodeModes(lines, num).error.MissingLine?
    ensures |lines| <= RollLine
  {
  }

  /** An eigenvalue line written as a label and number tokens reads back as those numbers. */
  lemma EigenvaluesWritten(lines: seq<string>, line: nat, tag: string, ws: seq<string>, xs: seq<real>, num: NumberSyntax)
    requires line < |lines| && lines[line] == Unwords([tag] + ws)
    requires tag != [] && NoSpace(tag)
    requires forall i | 0 <= i < |ws| :: ws[i] != [] && NoSpace(ws[i])
    requires |xs| == |ws| && forall i | 0 <= i < |ws| :: num.parseFloat(ws[i]) == Some(xs[i])
    ensures Eigenvalues(lines, line, num) == Success(xs)
  {
    var all := [tag] + ws;
    assert forall i | 0 <= i < |all| :: all[i] != [] && NoSpace(all[i]);
    TokensUnwords(all);
    assert AfterFirst(Tokens(lines[line])) == ws;
    var r := ParseAll(ws, line, 1, num);
    assert r.Success?;
    assert r.value == xs by {
      forall k | 0 <= k < |ws| ensures r.value[k] == xs[k] {
        assert num.parseFloat(ws[k]) == Some(r.value[k]);
      }
    }
  }
}
