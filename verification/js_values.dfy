/** The small optional type used throughout the model. */
module Wrappers {

  /** A value that may be absent: JavaScript's `null` result of a lookup or a helper. */
  datatype Option<+T> = None | Some(value: T) {

    /** Returns the value, or `default` when absent. */
    function GetOr(default: T): T {
      match this
      case Some(v) => v
      case None => default
    }
  }
}

/**
 * JavaScript values that occupy a numeric slot in the dashboard: a finite
 * number, `null`, `undefined` or `NaN`, together with the coercions that the
 * relational operators and the truthiness tests of the source apply to them.
 */
module JsValues {

  /** A number slot. Finite numbers are modelled as reals. */
  datatype JsNum = Num(x: real) | Null | Undefined | NaN

  /** `v == null` in JavaScript holds exactly for `null` and `undefined`. */
  predicate IsNullish(v: JsNum) {
    v.Null? || v.Undefined?
  }

  /**
   * The numeric coercion `ToNumber` that `<`, `<=`, `>`, `>=`, `*` and `/`
   * apply to a number slot: `null` becomes 0 and `undefined` becomes NaN.
   */
  function ToNumeric(v: JsNum): (r: JsNum)
    ensures r.Num? || r.NaN?
    ensures r.Num? <==> v.Num? || v.Null?
    ensures v.Num? ==> r == v
  {
    match v
    case Num(_) => v
    case Null => Num(0.0)
    case _ => NaN
  }

  /** `a > b`: false as soon as either side coerces to NaN. */
  predicate Gt(a: JsNum, b: JsNum) {
    var x, y := ToNumeric(a), ToNumeric(b);
    x.Num? && y.Num? && x.x > y.x
  }

  /** `a >= b`. */
  predicate Ge(a: JsNum, b: JsNum) {
    var x, y := ToNumeric(a), ToNumeric(b);
    x.Num? && y.Num? && x.x >= y.x
  }

  /** `a < b`. */
  predicate Lt(a: JsNum, b: JsNum) {
    Gt(b, a)
  }

  /** `a <= b`. */
  predicate Le(a: JsNum, b: JsNum) {
    Ge(b, a)
  }

  /**
   * Arithmetic on a slot already known not to hold `null` or `undefined`:
   * a number is mapped by `f`, and NaN stays NaN.
   */
  function Apply(v: JsNum, f: real -> real): (r: JsNum)
    requires !IsNullish(v)
    ensures r.Num? <==> v.Num?
    ensures r.NaN? <==> v.NaN?
  {
    match v
    case Num(x) => Num(f(x))
    case _ => NaN
  }

  /** Truthiness of a number slot: false for 0, `null`, `undefined` and `NaN`. */
  predicate Truthy(v: JsNum) {
    v.Num? && v.x != 0.0
  }

  /** `Math.round`: the nearest integer, halves rounded towards positive infinity. */
  function Round(x: real): (r: int)
    ensures x - 0.5 < r as real <= x + 0.5
  {
    (x + 0.5).Floor
  }

  /** `Math.round` is monotone. */
  lemma RoundMonotone(x: real, y: real)
    requires x <= y
    ensures Round(x) <= Round(y)
  {
  }

  /** Rounding an integer-valued real gives that integer back. */
  lemma RoundOfInt(n: int)
    ensures Round(n as real) == n
  {
  }

  /** Sign facts about products of reals, stated once for the proofs that divide. */
  lemma MulNonNegative(a: real, b: real)
    requires a >= 0.0 && b >= 0.0
    ensures a * b >= 0.0
  {
  }

  lemma FactorNonNegative(a: real, b: real)
    requires b > 0.0 && a * b >= 0.0
    ensures a >= 0.0
  {
  }

  lemma FactorZero(a: real, b: real)
    requires b > 0.0 && a * b == 0.0
    ensures a == 0.0
  {
  }

  /** `Math.max(lo, Math.min(hi, x))` for numbers. */
  function Clamp(x: real, lo: real, hi: real): (r: real)
    requires lo <= hi
    ensures lo <= r <= hi
    ensures lo <= x <= hi ==> r == x
    ensures x < lo ==> r == lo
    ensures x > hi ==> r == hi
  {
    if x > hi then hi else if x < lo then lo else x
  }

  /** Reading a property of a plain object of numbers: an absent key reads as `undefined`. */
  function Property(obj: map<string, JsNum>, k: string): (r: JsNum)
    ensures k in obj ==> r == obj[k]
    ensures k !in obj ==> r.Undefined?
  {
    if k in obj then obj[k] else Undefined
  }
}
