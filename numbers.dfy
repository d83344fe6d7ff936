/**
 * Numbers as the wrapper handles them. Python's float(), int() and the
 * str() of a float are left abstract: a NumberSyntax value carries them,
 * and the model never looks inside. Numeric values themselves are exact
 * reals.
 */
module Numbers {

  import opened Wrappers

  /**
   * parseFloat is float(token) (None where Python raises ValueError),
   * parseInt is int(token), show is str(x) of a float.
   */
  datatype NumberSyntax = NumberSyntax(
    parseFloat: string -> Option<real>,
    parseInt: string -> Option<int>,
    show: real -> string)

  /** f"{x}" of a field that may still hold None. */
  function ShowOpt(show: real -> string, x: Option<real>): string {
    match x
    case None => "None"
    case Some(v) => show(v)
  }

  /** f"{s}" of a string field that may still hold None. */
  function ShowOptText(s: Option<string>): string {
    match s
    case None => "None"
    case Some(v) => v
  }

  /** Python's int() of a float: truncation toward zero. */
  function Trunc(x: real): (n: int)
    ensures 0.0 <= x ==> 0 <= n && n as real <= x < n as real + 1.0
    ensures x < 0.0 ==> n <= 0 && n as real - 1.0 < x <= n as real
  {
    if 0.0 <= x then x.Floor else -((-x).Floor)
  }
}
