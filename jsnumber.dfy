/** The JavaScript number values that the simulation's progress ratios can take.

    Every timed effect in the game computes `Math.min(1, elapsed / duration)`.
    Elapsed times and durations are finite, but the quotient is not when the
    duration is zero, so this module models the quotient as a small datatype
    of IEEE values over exact reals (rounding is not modelled). */
module JsNumber {

  /** A JavaScript number as produced by dividing two finite numbers. */
  datatype Num = Fin(v: real) | PosInf | NegInf | NaN

  /** `a / b` in IEEE arithmetic for finite `a` and `b`. */
  function Div(a: real, b: real): (r: Num)
    ensures b != 0.0 ==> r.Fin? && r.v * b == a
    ensures b == 0.0 ==> !r.Fin?
    ensures r.NaN? <==> a == 0.0 && b == 0.0
  {
    if b != 0.0 then Fin(a / b)
    else if a > 0.0 then PosInf
    else if a < 0.0 then NegInf
    else NaN
  }

  /** `Math.min(1, x)`: NaN is absorbing, every other value is capped at one. */
  function Min1(x: Num): (r: Num)
    ensures !r.PosInf? && (r.Fin? ==> r.v <= 1.0)
    ensures r.NaN? <==> x.NaN?
  {
    match x
    case Fin(v) => Fin(if v < 1.0 then v else 1.0)
    case PosInf => Fin(1.0)
    case NegInf => NegInf
    case NaN => NaN
  }

  /** `x >= 1` (false for NaN). */
  predicate AtLeastOne(x: Num) {
    match x
    case Fin(v) => v >= 1.0
    case PosInf => true
    case _ => false
  }

  /** `x < 1` (false for NaN). */
  predicate BelowOne(x: Num) {
    match x
    case Fin(v) => v < 1.0
    case NegInf => true
    case _ => false
  }

  /** `x === 1`. */
  predicate IsOne(x: Num) {
    x.Fin? && x.v == 1.0
  }

  /** Normalised progress `Math.min(1, elapsed / duration)` of a timed task. */
  function Progress(elapsed: real, duration: real): (t: Num)
    ensures !t.PosInf? && (t.Fin? ==> t.v <= 1.0)
    ensures t.NaN? <==> elapsed == 0.0 && duration == 0.0
  {
    Min1(Div(elapsed, duration))
  }

  /** A task is finished exactly when its elapsed time has reached its
      duration; a zero duration finishes on the first positive elapsed time,
      and a negative one once the elapsed time falls to it. */
  lemma ProgressFinished(elapsed: real, duration: real)
    ensures AtLeastOne(Progress(elapsed, duration)) <==>
      (duration > 0.0 && elapsed >= duration) ||
      (duration == 0.0 && elapsed > 0.0) ||
      (duration < 0.0 && elapsed <= duration)
  {
    if duration != 0.0 {
      var q := elapsed / duration;
      assert Progress(elapsed, duration) == Fin(if q < 1.0 then q else 1.0);
      QuotientAtLeastOne(elapsed, duration);
    }
  }

  /** A quotient reaches one exactly when the dividend has reached the
      divisor in the divisor's own direction. */
  lemma QuotientAtLeastOne(a: real, b: real)
    requires b != 0.0
    ensures a / b >= 1.0 <==> (b > 0.0 && a >= b) || (b < 0.0 && a <= b)
  {
    var q := a / b;
    assert a - b == (q - 1.0) * b;
    if q >= 1.0 {
      assert (q - 1.0) * b == 0.0 || (b > 0.0 <==> (q - 1.0) * b > 0.0);
    } else {
      assert b > 0.0 <==> (q - 1.0) * b < 0.0;
    }
  }

  /** A capped progress value is at least one only by being exactly one,
      and it is either below one, exactly one, or NaN. */
  lemma ProgressCases(elapsed: real, duration: real)
    ensures var t := Progress(elapsed, duration);
      (AtLeastOne(t) <==> IsOne(t)) &&
      (BelowOne(t) <==> !IsOne(t) && !t.NaN?)
  {
  }

  /** With a positive duration, progress never decreases as time accumulates. */
  lemma ProgressMonotonic(e1: real, e2: real, duration: real)
    requires duration > 0.0 && e1 <= e2
    ensures Progress(e1, duration).Fin? && Progress(e2, duration).Fin?
    ensures Progress(e1, duration).v <= Progress(e2, duration).v
  {
    var q1, q2 := e1 / duration, e2 / duration;
    assert q1 * duration == e1 && q2 * duration == e2;
    if q1 > q2 {
      assert q1 * duration > q2 * duration;
    }
  }
}
