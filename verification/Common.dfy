/**
 Small concepts that several components share.
 */
module Options {
  datatype Option<T> = None | Some(value: T)
}

module Numbers {
  /** Go's conversion of a float to an integer, and IntPart of a decimal: towards zero. */
  function Truncate(x: real): int {
    if x >= 0.0 then x.Floor else -((-x).Floor)
  }

  /** q is x without its fraction. */
  predicate IsIntegerPart(q: int, x: real) {
    (x >= 0.0 ==> q as real <= x < q as real + 1.0) && (x < 0.0 ==> q as real - 1.0 < x <= q as real)
  }

  lemma TruncateMeaning(x: real)
    ensures IsIntegerPart(Truncate(x), x) && forall q :: IsIntegerPart(q, x) ==> q == Truncate(x)
  {
  }

  /** Prices closer than this count as equal. */
  const EPSILON := 0.000000001

  predicate NearlyEqual(a: real, b: real) {
    if a > b then a - b < EPSILON else b - a < EPSILON
  }
}
