/**
 * The `Math` functions the model uses on real numbers: `Math.round`,
 * `Math.ceil` and the absolute value; `Math.floor` is Dafny's `.Floor`.
 */
module JsMath {

  /** `Math.round`: the nearest integer, halves rounded up. */
  function Round(x: real): (r: int)
    ensures (r as real) - 0.5 <= x < (r as real) + 0.5
  {
    (x + 0.5).Floor
  }

  /** Adding an integer commutes with `Math.round`. */
  lemma RoundShift(x: real, k: int)
    ensures Round(x + k as real) == Round(x) + k
  {
  }

  /** `Math.round` never reverses the order of its arguments. */
  lemma RoundMonotone(a: real, b: real)
    requires a <= b
    ensures Round(a) <= Round(b)
  {
  }

  /** `Math.ceil`: the least integer not below `x`. */
  function Ceil(x: real): (c: int)
    ensures (c - 1) as real < x <= c as real
  {
    -((-x).Floor)
  }

  function Abs(x: real): real { if x < 0.0 then -x else x }
}
