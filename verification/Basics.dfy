/** Types and arithmetic shared by the models. */
module Basics {
  type byte = x: int | 0 <= x < 256

  datatype Option<+T> = None | Some(value: T)

  function Min(a: int, b: int): int {
    if a < b then a else b
  }

  function Max(a: int, b: int): int {
    if a < b then b else a
  }

  ghost predicate IsSqrt(f: real -> real) {
    forall v :: v >= 0.0 ==> f(v) >= 0.0 && f(v) * f(v) == v
  }

  lemma MulMonotone(a: int, b: int, w: nat)
    requires a <= b
    ensures a * w <= b * w
  {
    var gap: nat := b - a;
    assert b * w == (a + gap) * w == a * w + gap * w;
  }

  /** Row a ends where a later row b starts, or before. */
  lemma RowsOrdered(a: nat, b: nat, stride: nat)
    requires a < b
    ensures a * stride + stride <= b * stride
  {
    assert (a + 1) * stride == a * stride + stride;
    MulMonotone(a + 1, b, stride);
  }
}
