/**
 * Aero.read_config: the sweep configuration file. Comment lines (first
 * character '#') and empty lines are dropped; the k-th remaining line
 * holds parameter k as its second whitespace token.
 */
module AvlConfig {

  import opened Wrappers
  import opened Text
  import opened Numbers

  /** The values read_config assigns to the Aero object. */
  datatype Config = Config(
    mass: real, xcg: real, ycg: real, zcg: real,
    ixx: real, iyy: real, izz: real, velocity: real,
    alpha0: real, alpha1: real, increment: real,
    threads: int, units: string, polars: bool, modes: bool)

  /**
   * MissingParameter is the IndexError that read_config catches before it
   * exits; NotANumber is the ValueError of float() or int(), which it does
   * not catch. Either one ends the run.
   */
  datatype ConfigError =
    | MissingParameter(index: nat)
    | NotANumber(index: nat)

  /** mass, Xcg, Ycg, Zcg, Ixx, Iyy, Izz, velocity, alpha0, alpha1, increment, threads, units, polars, modes. */
  const ParameterCount: nat := 15
  const ThreadsIndex: nat := 11
  const UnitsIndex: nat := 12

  /** The comprehension's test: `line[0] != "#" and line != "\n"`. */
  predicate Significant(line: string)
    requires line != []
  {
    line[0] != '#' && line != "\n"
  }

  /** The lines that survive the comprehension, in their original order. */
  function KeptLines(lines: seq<string>): (kept: seq<string>)
    requires forall i | 0 <= i < |lines| :: lines[i] != []
    ensures |kept| <= |lines|
    ensures forall i | 0 <= i < |kept| :: kept[i] != [] && Significant(kept[i])
  {
    if lines == [] then []
    else (if Significant(lines[0]) then [lines[0]] else []) + KeptLines(lines[1..])
  }

  /** Filtering a concatenation filters each part: the kept lines stay in file order. */
  lemma {:induction false} KeptLinesAppend(a: seq<string>, b: seq<string>)
    requires forall i | 0 <= i < |a| :: a[i] != []
    requires forall i | 0 <= i < |b| :: b[i] != []
    ensures KeptLines(a + b) == KeptLines(a) + KeptLines(b)
  {
    if a != [] {
      assert (a + b)[1..] == a[1..] + b;
      KeptLinesAppend(a[1..], b);
    } else {
      assert a + b == b;
    }
  }

  /** A line is kept exactly when it is in the file and is significant. */
  lemma {:induction false} KeptLinesMembers(lines: seq<string>, l: string)
    requires forall i | 0 <= i < |lines| :: lines[i] != []
    ensures l in KeptLines(lines) <==> l in lines && Significant(l)
  {
    if lines != [] {
      KeptLinesMembers(lines[1..], l);
      assert l in lines <==> l == lines[0] || l in lines[1..];
    }
  }

  /** Nothing is dropped from a file whose lines are all significant. */
  lemma {:induction false} KeptLinesAllSignificant(lines: seq<string>)
    requires forall i | 0 <= i < |lines| :: lines[i] != [] && Significant(lines[i])
    ensures KeptLines(lines) == lines
  {
    if lines != [] {
      KeptLinesAllSignificant(lines[1..]);
    }
  }

  /** The significant lines of a configuration file's text. */
  function SignificantLines(text: string): (kept: seq<string>)
    ensures |kept| <= |ReadLines(text)|
    ensures forall i | 0 <= i < |kept| :: kept[i] != [] && Significant(kept[i])
  {
    KeptLines(ReadLines(text))
  }

  /** Significant line k exists and has a second token. */
  predicate Present(kept: seq<string>, k: nat) {
    k < |kept| && |Tokens(kept[k])| >= 2
  }

  /** `lines[k].split()[1]`. */
  function Value(kept: seq<string>, k: nat): string
    requires Present(kept, k)
  {
    Tokens(kept[k])[1]
  }

  /** The conversion read_config applies to parameter k succeeds. */
  predicate Converts(kept: seq<string>, k: nat, num: NumberSyntax)
    requires Present(kept, k)
  {
    if k < ThreadsIndex then num.parseFloat(Value(kept, k)).Some?
    else if k == ThreadsIndex then num.parseInt(Value(kept, k)).Some?
    else true
  }

  predicate ParameterOk(kept: seq<string>, k: nat, num: NumberSyntax) {
    Present(kept, k) && Converts(kept, k, num)
  }

  /** `str_to_bool`: only the exact token "Y" is true. */
  function YesNo(token: string): (b: bool)
    ensures b <==> token == "Y"
  {
    token == "Y"
  }

  function Token(kept: seq<string>, k: nat): (r: Result<string, ConfigError>)
    ensures r.Success? <==> Present(kept, k)
    ensures r.Success? ==> r.value == Value(kept, k)
    ensures r.Failure? ==> r.error == MissingParameter(k)
  {
    if Present(kept, k) then Success(Value(kept, k)) else Failure(MissingParameter(k))
  }

  /** `float(lines[k].split()[1])`. */
  function FloatParameter(kept: seq<string>, k: nat, num: NumberSyntax): (r: Result<real, ConfigError>)
    requires k < ThreadsIndex
    ensures r.Success? <==> ParameterOk(kept, k, num)
    ensures r.Success? ==> Some(r.value) == num.parseFloat(Value(kept, k))
    ensures r.Failure? ==> r.error.index == k && (r.error.MissingParameter? <==> !Present(kept, k))
  {
    var token :- Token(kept, k);
    match num.parseFloat(token)
    case Some(x) => Success(x)
    case None => Failure(NotANumber(k))
  }

  /** `int(lines[11].split()[1])`. */
  function IntParameter(kept: seq<string>, num: NumberSyntax): (r: Result<int, ConfigError>)
    ensures r.Success? <==> ParameterOk(kept, ThreadsIndex, num)
    ensures r.Success? ==> Some(r.value) == num.parseInt(Value(kept, ThreadsIndex))
    ensures r.Failure? ==> r.error.index == ThreadsIndex && (r.error.MissingParameter? <==> !Present(kept, ThreadsIndex))
  {
    var token :- Token(kept, ThreadsIndex);
    match num.parseInt(token)
    case Some(n) => Success(n)
    case None => Failure(NotANumber(ThreadsIndex))
  }

  /** `str_to_bool(lines[k].split()[1])`. */
  function FlagParameter(kept: seq<string>, k: nat, num: NumberSyntax): (r: Result<bool, ConfigError>)
    requires UnitsIndex < k
    ensures r.Success? <==> ParameterOk(kept, k, num)
    ensures r.Success? ==> r.value == (Value(kept, k) == "Y")
    ensures r.Failure? ==> r.error == MissingParameter(k)
  {
    var token :- Token(kept, k);
    Success(YesNo(token))
  }

  /** The float value of parameter k, once it is known to convert. */
  function FloatValue(kept: seq<string>, k: nat, num: NumberSyntax): real
    requires k < ThreadsIndex && ParameterOk(kept, k, num)
  {
    num.parseFloat(Value(kept, k)).value
  }

  /** One parameter once converted: a float, the thread count, the units token or a flag. */
  datatype Setting =
    | RealSetting(x: real)
    | IntSetting(n: int)
    | TextSetting(s: string)
    | FlagSetting(b: bool)

  /** The assignment read_config makes for parameter k, with the conversion that parameter takes. */
  function Parameter(kept: seq<string>, k: nat, num: NumberSyntax): (r: Result<Setting, ConfigError>)
    requires k < ParameterCount
    ensures r.Success? <==> ParameterOk(kept, k, num)
    ensures r.Failure? ==> r.error.index == k && (r.error.MissingParameter? <==> !Present(kept, k))
    ensures r.Success? ==>
      && (k < ThreadsIndex ==> r.value == RealSetting(FloatValue(kept, k, num)))
      && (k == ThreadsIndex ==> r.value == IntSetting(num.parseInt(Value(kept, k)).value))
      && (k == UnitsIndex ==> r.value == TextSetting(Value(kept, k)))
      && (UnitsIndex < k ==> r.value == FlagSetting(Value(kept, k) == "Y"))
  {
    if k < ThreadsIndex then
      var x :- FloatParameter(kept, k, num);
      Success(RealSetting(x))
    else if k == ThreadsIndex then
      var n :- IntParameter(kept, num);
      Success(IntSetting(n))
    else if k == UnitsIndex then
      var units :- Token(kept, k);
      Success(TextSetting(units))
    else
      var flag :- FlagParameter(kept, k, num);
      Success(FlagSetting(flag))
  }

  /**
   * The assignments of read_config to parameters 0 .. n-1, in the order it
   * makes them: the first parameter that is missing or does not convert is
   * the error.
   */
  function ParseParameters(kept: seq<string>, n: nat, num: NumberSyntax): (r: Result<seq<Setting>, ConfigError>)
    requires n <= ParameterCount
    ensures r.Success? <==> forall j | 0 <= j < n :: ParameterOk(kept, j, num)
    ensures r.Success? ==> |r.value| == n && forall j | 0 <= j < n :: Parameter(kept, j, num) == Success(r.value[j])
    ensures r.Failure? ==>
      && r.error.index < n
      && (forall j | 0 <= j < r.error.index :: ParameterOk(kept, j, num))
      && !ParameterOk(kept, r.error.index, num)
      && (r.error.MissingParameter? <==> !Present(kept, r.error.index))
  {
    if n == 0 then Success([])
    else
      var init :- ParseParameters(kept, n - 1, num);
      var v :- Parameter(kept, n - 1, num);
      Success(init + [v])
  }

  /** Aero.read_config on its significant lines: all fifteen assignments, or the first error. */
  function ParseSignificant(kept: seq<string>, num: NumberSyntax): (r: Result<Config, ConfigError>)
    ensures r.Success? <==> AllParametersOk(kept, num)
    ensures r.Failure? ==>
      && r.error.index < ParameterCount
      && (forall j | 0 <= j < r.error.index :: ParameterOk(kept, j, num))
      && !ParameterOk(kept, r.error.index, num)
      && (r.error.MissingParameter? <==> !Present(kept, r.error.index))
    ensures r.Success? ==>
      && ParameterOk(kept, ThreadsIndex, num) && ParameterOk(kept, UnitsIndex, num)
      && ParameterOk(kept, 13, num) && ParameterOk(kept, 14, num)
      && r.value.mass == FloatValue(kept, 0, num)
      && r.value.xcg == FloatValue(kept, 1, num)
      && r.value.ycg == FloatValue(kept, 2, num)
      && r.value.zcg == FloatValue(kept, 3, num)
      && r.value.ixx == FloatValue(kept, 4, num)
      && r.value.iyy == FloatValue(kept, 5, num)
      && r.value.izz == FloatValue(kept, 6, num)
      && r.value.velocity == FloatValue(kept, 7, num)
      && r.value.alpha0 == FloatValue(kept, 8, num)
      && r.value.alpha1 == FloatValue(kept, 9, num)
      && r.value.increment == FloatValue(kept, 10, num)
      && r.value.threads == num.parseInt(Value(kept, ThreadsIndex)).value
      && r.value.units == Value(kept, UnitsIndex)
      && r.value.polars == (Value(kept, 13) == "Y")
      && r.value.modes == (Value(kept, 14) == "Y")
  {
    var vs :- ParseParameters(kept, ParameterCount, num);
    assert Parameter(kept, 0, num) == Success(vs[0]) && Parameter(kept, 1, num) == Success(vs[1]);
    assert Parameter(kept, 2, num) == Success(vs[2]) && Parameter(kept, 3, num) == Success(vs[3]);
    assert Parameter(kept, 4, num) == Success(vs[4]) && Parameter(kept, 5, num) == Success(vs[5]);
    assert Parameter(kept, 6, num) == Success(vs[6]) && Parameter(kept, 7, num) == Success(vs[7]);
    assert Parameter(kept, 8, num) == Success(vs[8]) && Parameter(kept, 9, num) == Success(vs[9]);
    assert Parameter(kept, 10, num) == Success(vs[10]) && Parameter(kept, 11, num) == Success(vs[11]);
    assert Parameter(kept, 12, num) == Success(vs[12]) && Parameter(kept, 13, num) == Success(vs[13]);
    assert Parameter(kept, 14, num) == Success(vs[14]);
    Success(Config(vs[0].x, vs[1].x, vs[2].x, vs[3].x, vs[4].x, vs[5].x, vs[6].x, vs[7].x,
                   vs[8].x, vs[9].x, vs[10].x, vs[11].n, vs[12].s, vs[13].b, vs[14].b))
  }

  /** Every one of the fifteen parameters is present and converts. */
  predicate AllParametersOk(kept: seq<string>, num: NumberSyntax) {
    forall k | 0 <= k < ParameterCount :: ParameterOk(kept, k, num)
  }

  /** Aero.read_config on a file whose contents are `text`. */
  function ParseConfig(text: string, num: NumberSyntax): (r: Result<Config, ConfigError>)
    ensures r.Success? ==> ParameterCount <= |SignificantLines(text)|
  {
    ParseSignificant(SignificantLines(text), num)
  }

  /** Fewer than fifteen significant lines: no configuration at all. */
  lemma TooFewLinesFail(text: string, num: NumberSyntax)
    requires |SignificantLines(text)| < ParameterCount
    ensures ParseConfig(text, num).Failure?
  {
    var kept := SignificantLines(text);
    assert !ParameterOk(kept, |kept|, num);
  }

  /** A significant line among the first fifteen with fewer than two tokens: no configuration. */
  lemma ShortLineFails(text: string, num: NumberSyntax, k: nat)
    requires k < ParameterCount && k < |SignificantLines(text)|
    requires |Tokens(SignificantLines(text)[k])| < 2
    ensures ParseConfig(text, num).Failure?
  {
    assert !ParameterOk(SignificantLines(text), k, num);
  }

  /** The documented layout: one `name value` line per parameter. */
  function ConfigLine(name: string, value: string): string {
    Unwords([name, value])
  }

  /** A `name value` line is one complete, significant line of exactly those two tokens. */
  lemma ConfigLineRead(name: string, value: string)
    requires name != [] && NoSpace(name) && name[0] != '#'
    requires value != [] && NoSpace(value)
    ensures IsLine(ConfigLine(name, value)) && Significant(ConfigLine(name, value))
    ensures Tokens(ConfigLine(name, value)) == [name, value]
  {
    var l := ConfigLine(name, value);
    assert [name, value][1..] == [value];
    assert Unwords([value]) == value + "\n";
    assert l == name + " " + (value + "\n");
    assert l[0] == name[0];
    forall i | 0 <= i < |l| - 1 ensures l[i] != '\n' {
      if i < |name| {
        assert l[i] == name[i];
      } else if i == |name| {
      } else {
        assert l[i] == value[i - |name| - 1];
      }
    }
    TokensUnwords([name, value]);
  }

  /**
   * A file written as fifteen `name value` lines (names not starting with
   * '#') yields value k as parameter k.
   */
  lemma WrittenConfigValues(names: seq<string>, values: seq<string>)
    requires |names| == ParameterCount && |values| == ParameterCount
    requires forall k | 0 <= k < ParameterCount :: names[k] != [] && NoSpace(names[k]) && names[k][0] != '#'
    requires forall k | 0 <= k < ParameterCount :: values[k] != [] && NoSpace(values[k])
    ensures var kept := SignificantLines(Concat(seq(ParameterCount, k requires 0 <= k < ParameterCount => ConfigLine(names[k], values[k]))));
      |kept| == ParameterCount && forall k | 0 <= k < ParameterCount :: Present(kept, k) && Value(kept, k) == values[k]
  {
    var lines := seq(ParameterCount, k requires 0 <= k < ParameterCount => ConfigLine(names[k], values[k]));
    forall k | 0 <= k < ParameterCount
      ensures IsLine(lines[k]) && Significant(lines[k]) && Tokens(lines[k]) == [names[k], values[k]]
    {
      ConfigLineRead(names[k], values[k]);
    }
    ReadLinesConcat(lines);
    KeptLinesAllSignificant(lines);
  }
}
