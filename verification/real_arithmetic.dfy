/** Products of reals by name, so that proofs can reason about signs and sums of them without
    multiplying out. */
module RealArithmetic {

  function Times(a: real, b: real): real { a * b }

  lemma ProductSign(a: real, b: real, z: real)
    requires z == a * b
    ensures (a > 0.0 && b > 0.0) || (a < 0.0 && b < 0.0) ==> z > 0.0
    ensures a == 0.0 || b == 0.0 ==> z == 0.0
    ensures a >= 0.0 && b >= 0.0 ==> z >= 0.0
  {
  }

  function Square(r: real): (s: real)
    ensures s >= 0.0
    ensures r != 0.0 ==> s > 0.0
  {
    var s := r * r;
    ProductSign(r, r, s);
    s
  }

  lemma SquareSign(a: real, z: real)
    requires z == a * a
    ensures z >= 0.0
    ensures a != 0.0 ==> z > 0.0
  {
    ProductSign(a, a, z);
  }

  function Ceil(x: real): (c: int)
    ensures c as real - 1.0 < x <= c as real
  {
    if x.Floor as real == x then x.Floor else x.Floor + 1
  }
}
