/** Facts about products and quotients that the solver does not find by itself. */
module Arithmetic {

  // ---------------------------------------------------------------- integers

  function Min(a: int, b: int): int { if a < b then a else b }

  function Max(a: int, b: int): int { if a < b then b else a }

  lemma NatProduct(a: nat, b: nat)
    ensures a * b >= 0
  {
  }

  /** Multiplying by n is monotone. */
  lemma Multiply(n: nat, a: int, b: int)
    ensures a <= b ==> n * a <= n * b
  {
    if a <= b {
      assert n * (b - a) == n * b - n * a;
      NatProduct(n, b - a);
    }
  }

  lemma MulAtLeast(n: nat, z: int)
    requires z > 0
    ensures n * z >= n
  {
    assert n * z == n * (z - 1) + n;
  }

  lemma Small(n: nat, z: int, r: int)
    requires n > 0 && n * z == r && 0 - n < r < n
    ensures z == 0
  {
    if z > 0 {
      MulAtLeast(n, z);
    } else if z < 0 {
      assert n * -z == -r;
      MulAtLeast(n, -z);
    }
  }

  lemma DivUnique(x: nat, n: nat, q: nat, r: nat)
    requires n > 0 && x == n * q + r && r < n
    ensures x / n == q && x % n == r
  {
    var p, s := x / n, x % n;
    assert n * (p - q) == r - s;
    Small(n, p - q, r - s);
  }

  function CeilDiv(a: int, b: int): (q: int)
    requires b > 0
    ensures a >= 0 ==> q >= 0
  {
    (a + b - 1) / b
  }

  lemma ExactDiv(n: nat, w: nat)
    requires n > 0
    ensures CeilDiv(n * w, n) == w
  {
    DivUnique(n * w + n - 1, n, w, n - 1);
  }

  // ---------------------------------------------------------------- reals

  function MinReal(x: real, y: real): real { if x < y then x else y }

  function MaxReal(x: real, y: real): real { if x < y then y else x }

  lemma RealProduct(x: real, y: real)
    requires x >= 0.0 && y >= 0.0
    ensures x * y >= 0.0
  {
  }

  lemma Sign(x: real, n: real)
    requires n > 0.0
    ensures x > 0.0 <==> x * n > 0.0
    ensures x < 0.0 <==> x * n < 0.0
  {
  }
}
