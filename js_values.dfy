/**
 * JavaScript numbers as the dice and sheet code sees them after `Number(...)`.
 * Fractions are abstracted away: a finite number is an integer here.
 */
module JsValues {
  import opened Wrappers

  datatype Number = Finite(value: int) | NaN | Infinity | NegInfinity {

    /** `Number.isFinite(x)`. */
    predicate IsFinite() {
      Finite?
    }
  }

  /** `Number(x ?? 0)`: an absent (null or undefined) field reads as zero. */
  function OrZero(x: Option<Number>): Number {
    x.GetOr(Finite(0))
  }

  /** A number used as a condition (`x || y`, `if (x)`): zero and NaN are falsy. */
  predicate Truthy(x: Number) {
    x != Finite(0) && x != NaN
  }

  /** `a + b` under IEEE 754, restricted to this abstraction. */
  function Add(a: Number, b: Number): (r: Number)
    ensures r.IsFinite() <==> a.IsFinite() && b.IsFinite()
    ensures r.IsFinite() ==> r.value == a.value + b.value
    ensures r == NaN <==> a == NaN || b == NaN || {a, b} == {Infinity, NegInfinity}
  {
    match (a, b)
    case (Finite(x), Finite(y)) => Finite(x + y)
    case (NaN, _) => NaN
    case (_, NaN) => NaN
    case (Infinity, NegInfinity) => NaN
    case (NegInfinity, Infinity) => NaN
    case (Infinity, _) => Infinity
    case (_, Infinity) => Infinity
    case (NegInfinity, _) => NegInfinity
    case (_, NegInfinity) => NegInfinity
  }

  /** `a >= b`: every comparison with NaN is false. */
  predicate AtLeast(a: Number, b: Number) {
    match (a, b)
    case (NaN, _) => false
    case (_, NaN) => false
    case (Finite(x), Finite(y)) => x >= y
    case (Infinity, _) => true
    case (_, NegInfinity) => true
    case _ => false
  }

  /** `>=` never holds with `NaN`; on the other numbers it is a total order with `-Infinity` least and `Infinity` greatest. */
  lemma AtLeastOrder(a: Number, b: Number)
    ensures a == NaN || b == NaN ==> !AtLeast(a, b)
    ensures a != NaN ==> AtLeast(a, a) && AtLeast(Infinity, a) && AtLeast(a, NegInfinity)
    ensures a != NaN && b != NaN ==> AtLeast(a, b) || AtLeast(b, a)
    ensures a.Finite? && b.Finite? ==> (AtLeast(a, b) <==> a.value >= b.value)
  {
  }

  lemma AtLeastTransitive(a: Number, b: Number, c: Number)
    requires AtLeast(a, b) && AtLeast(b, c)
    ensures AtLeast(a, c)
  {
  }

  /** `a > 0`. */
  predicate Positive(a: Number) {
    (a.Finite? && a.value > 0) || a == Infinity
  }

  /** `Math.max(a, b)`: NaN if either argument is NaN, otherwise the larger one. */
  function Max(a: Number, b: Number): (r: Number)
    ensures r == NaN <==> a == NaN || b == NaN
    ensures r != NaN ==> (r == a || r == b) && AtLeast(r, a) && AtLeast(r, b)
  {
    if a == NaN || b == NaN then NaN
    else if AtLeast(a, b) then a
    else b
  }
}
