/**
 * The angle-of-attack samples of Aero.__init__:
 * `np.linspace(alpha0, alpha1, int(1+(alpha1-alpha0)/increment))`.
 * Arithmetic is exact here; the float rounding of the source is not modelled.
 */
module Sweep {

  import opened Wrappers
  import opened Numbers

  /**
   * ZeroIncrement is Python's ZeroDivisionError; NegativeSampleCount is the
   * ValueError np.linspace raises for a negative number of samples.
   */
  datatype SweepError = ZeroIncrement | NegativeSampleCount(count: int)

  /** The quotient whose truncation is the sample count. */
  function Span(alpha0: real, alpha1: real, increment: real): real
    requires increment != 0.0
  {
    1.0 + (alpha1 - alpha0) / increment
  }

  /** `int(1+(alpha1-alpha0)/increment)`, as np.linspace receives it. */
  function SampleCount(alpha0: real, alpha1: real, increment: real): (r: Result<nat, SweepError>)
    ensures r == Failure(ZeroIncrement) <==> increment == 0.0
    ensures r.Success? <==> increment != 0.0 && Span(alpha0, alpha1, increment) > -1.0
    ensures r.Success? && Span(alpha0, alpha1, increment) >= 0.0 ==>
      r.value as real <= Span(alpha0, alpha1, increment) < r.value as real + 1.0
    ensures r.Success? && Span(alpha0, alpha1, increment) < 0.0 ==> r.value == 0
  {
    if increment == 0.0 then Failure(ZeroIncrement)
    else
      var n := Trunc(Span(alpha0, alpha1, increment));
      if n < 0 then Failure(NegativeSampleCount(n)) else Success(n)
  }

  /**
   * `np.linspace(start, stop, num)`: num points, the first `start`, the
   * rest `start + i*step` with step `(stop-start)/(num-1)`, and the last
   * set to `stop` exactly.
   */
  function Linspace(start: real, stop: real, num: nat): (r: seq<real>)
    ensures |r| == num
    ensures num >= 1 ==> r[0] == start
    ensures num >= 2 ==> r[num - 1] == stop
    ensures num >= 2 ==> forall i | 0 <= i < num :: r[i] == start + (i as real) * ((stop - start) / ((num - 1) as real))
  {
    if num == 0 then []
    else if num == 1 then [start]
    else
      var step := (stop - start) / ((num - 1) as real);
      assert ((num - 1) as real) * step == stop - start;
      seq(num, i requires 0 <= i < num => if i == num - 1 then stop else start + (i as real) * step)
  }

  /** Consecutive samples are the same distance apart. */
  lemma LinspaceEvenlySpaced(start: real, stop: real, num: nat, i: nat)
    requires 2 <= num && i + 1 < num
    ensures Linspace(start, stop, num)[i + 1] - Linspace(start, stop, num)[i] == (stop - start) / ((num - 1) as real)
  {
    var step := (stop - start) / ((num - 1) as real);
    var r := Linspace(start, stop, num);
    assert r[i + 1] - r[i] == ((i + 1) as real) * step - (i as real) * step;
  }

  /**
   * When the range is an exact multiple k of the increment, the samples are
   * the progression alpha0, alpha0 + increment, ..., alpha1 (k + 1 of them).
   */
  lemma ExactMultipleIsProgression(alpha0: real, increment: real, k: nat)
    requires increment != 0.0
    ensures SampleCount(alpha0, alpha0 + (k as real) * increment, increment) == Success(k + 1)
    ensures Linspace(alpha0, alpha0 + (k as real) * increment, k + 1) == seq(k + 1, i requires 0 <= i <= k => alpha0 + (i as real) * increment)
  {
    var alpha1 := alpha0 + (k as real) * increment;
    MulDiv(k as real, increment);
    assert (alpha1 - alpha0) / increment == k as real;
    assert Span(alpha0, alpha1, increment) == (k + 1) as real;
    assert Trunc((k + 1) as real) == k + 1;
    LinspaceOfExactMultiple(alpha0, increment, k);
  }

  lemma LinspaceOfExactMultiple(alpha0: real, increment: real, k: nat)
    ensures Linspace(alpha0, alpha0 + (k as real) * increment, k + 1) == seq(k + 1, i requires 0 <= i <= k => alpha0 + (i as real) * increment)
  {
    var alpha1 := alpha0 + (k as real) * increment;
    var r := Linspace(alpha0, alpha1, k + 1);
    var progression := seq(k + 1, i requires 0 <= i <= k => alpha0 + (i as real) * increment);
    if k >= 1 {
      MulDiv(increment, k as real);
      var step := (alpha1 - alpha0) / (((k + 1) - 1) as real);
      assert step == increment;
      forall i | 0 <= i <= k ensures r[i] == progression[i] {
        assert r[i] == alpha0 + (i as real) * step;
        assert progression[i] == alpha0 + (i as real) * increment;
      }
    }
    assert r == progression;
  }

  lemma MulDiv(x: real, y: real)
    requires y != 0.0
    ensures (x * y) / y == x
  {
  }

  /** Whatever count the configuration yields, no two samples coincide. */
  lemma SamplesDistinct(alpha0: real, alpha1: real, increment: real)
    requires SampleCount(alpha0, alpha1, increment).Success?
    ensures var n := SampleCount(alpha0, alpha1, increment).value;
      var r := Linspace(alpha0, alpha1, n);
      forall i, j | 0 <= i < j < n :: r[i] != r[j]
  {
    var n := SampleCount(alpha0, alpha1, increment).value;
    var r := Linspace(alpha0, alpha1, n);
    if n >= 2 {
      assert (alpha1 - alpha0) / increment >= 1.0;
      assert alpha1 != alpha0;
      var step := (alpha1 - alpha0) / ((n - 1) as real);
      assert step != 0.0;
      forall i, j | 0 <= i < j < n ensures r[i] != r[j] {
        assert r[j] - r[i] == ((j - i) as real) * step;
      }
    }
  }

  /** 0 to 10 by 2: six samples, 0, 2, 4, 6, 8, 10. */
  lemma EvenRange()
    ensures SampleCount(0.0, 10.0, 2.0) == Success(6)
    ensures Linspace(0.0, 10.0, 6) == [0.0, 2.0, 4.0, 6.0, 8.0, 10.0]
  {
    ExactMultipleIsProgression(0.0, 2.0, 5);
  }

  /**
   * 0 to 5 by 2: three samples, but np.linspace spreads them over the
   * whole range, so they are 0, 2.5 and 5, not 0, 2 and 4.
   */
  lemma UnevenRange()
    ensures SampleCount(0.0, 5.0, 2.0) == Success(3)
    ensures Linspace(0.0, 5.0, 3) == [0.0, 2.5, 5.0]
  {
    assert Span(0.0, 5.0, 2.0) == 3.5;
    var r := Linspace(0.0, 5.0, 3);
    assert r[1] == 2.5;
  }
}
