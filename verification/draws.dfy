/** The random draws the generators make. Randomness itself is not modelled:
    each drawn number is an argument, constrained only by the range numpy's
    `randint(low, high)` draws from (`low <= x < high`, `high` excluded).
    When `low >= high` the call raises `ValueError` instead of drawing. */
module Draws {
  import opened Wrappers
  import opened Problems

  /** numpy's `ValueError: low >= high`. */
  datatype RandError = LowNotBelowHigh(low: int, high: int)

  /** `randint(low, high)` returning the drawn number `x`, or raising. */
  function RandInt(low: int, high: int, x: int): (r: Result<int, RandError>)
    requires low < high ==> low <= x < high
    ensures r.Ok? <==> low < high
    ensures r.Ok? ==> r.value == x && low <= r.value < high
    ensures r.Err? ==> r.error == LowNotBelowHigh(low, high)
  {
    if low < high then Ok(x) else Err(LowNotBelowHigh(low, high))
  }

  /** Addition draws `a` from [1, 1000), then `b` from [1, 1000 - a). */
  predicate AdditionDraws(x: int, y: int) {
    1 <= x < 1000 && (1 < 1000 - x ==> 1 <= y < 1000 - x)
  }

  /** Subtraction draws `a` from [1, 1000), then `b` from [1, a). */
  predicate SubtractionDraws(x: int, y: int) {
    1 <= x < 1000 && (1 < x ==> 1 <= y < x)
  }

  /** Multiplication draws `b` from [1, 10), `a` from [1, 20), and when
      `a > 10` draws `b` again from [1, 6). */
  predicate MultiplicationDraws(x: int, y: int, z: int) {
    1 <= x < 10 && 1 <= y < 20 && (y > 10 ==> 1 <= z < 6)
  }

  /** Division draws the divisor `b` and the quotient `c` from [1, 10). */
  predicate DivisionDraws(x: int, y: int) {
    1 <= x < 10 && 1 <= y < 10
  }

  /** The draws a problem of kind `kind` consumes, in drawing order. */
  predicate KindDraws(kind: ProblemType, x: int, y: int, z: int) {
    match kind
    case Addition => AdditionDraws(x, y)
    case Subtraction => SubtractionDraws(x, y)
    case Multiplication => MultiplicationDraws(x, y, z)
    case Division => DivisionDraws(x, y)
  }

  /** The draws that make an addition or subtraction raise: `randint(1, 1)`. */
  predicate Raises(kind: ProblemType, x: int) {
    (kind.Addition? && x == 999) || (kind.Subtraction? && x == 1)
  }
}
