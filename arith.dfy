/** Facts about multiplication and Euclidean division by a positive
    number, used where progress batches and sizes are counted. */
module Arith {

  lemma MulMonotone(x: int, y: int, b: nat)
    requires x <= y
    ensures x * b <= y * b
  {
    assert y * b == x * b + (y - x) * b;
  }

  lemma MulCancel(x: int, y: int, b: nat)
    requires x * b < y * b
    ensures x < y
  {
    if y <= x {
      MulMonotone(y, x, b);
      assert false;
    }
  }

  lemma DivFromParts(a: nat, b: nat, q: nat, r: nat)
    requires b >= 1 && a == q * b + r && r < b
    ensures a / b == q && a % b == r
  {
    var d := a / b;
    assert a == d * b + a % b;
    if d < q {
      assert (d + 1) * b == d * b + b;
      MulMonotone(d + 1, q, b);
      assert false;
    } else if q < d {
      assert (q + 1) * b == q * b + b;
      MulMonotone(q + 1, d, b);
      assert false;
    }
  }

  lemma DivBelow(a: nat, b: nat, k: nat)
    requires b >= 1 && a < k * b
    ensures a / b < k
  {
  }
}
