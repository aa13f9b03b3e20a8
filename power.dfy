/** Integer exponentiation: `binpow` of shape.cpp and the power it is meant to compute. */
module Power {

  /** a raised to the power n, by its defining recursion. */
  function Pow(a: int, n: nat): int
  {
    if n == 0 then 1 else a * Pow(a, n - 1)
  }

  /** C++ `n / 2` on `int`: truncates toward zero (Dafny's `/` is Euclidean). */
  function CppHalf(n: int): int
  {
    if n >= 0 then n / 2 else -((-n) / 2)
  }

  /** C++ `n % 2` on `int`: the remainder takes the sign of the dividend. */
  function CppRem2(n: int): int
  {
    n - 2 * CppHalf(n)
  }

  lemma {:induction false} PowAdd(a: int, m: nat, n: nat)
    ensures Pow(a, m + n) == Pow(a, m) * Pow(a, n)
  {
    if m > 0 {
      PowAdd(a, m - 1, n);
      calc {
        Pow(a, m + n);
        a * Pow(a, (m - 1) + n);
        a * (Pow(a, m - 1) * Pow(a, n));
        (a * Pow(a, m - 1)) * Pow(a, n);
        Pow(a, m) * Pow(a, n);
      }
    }
  }

  /** Exponentiation by squaring, branch for branch as in the source: an odd
      exponent peels off one factor, an even one squares the half power.
      With C++ `%` and `/`, a negative exponent never takes the odd branch and
      halves toward zero, so it ends in 1. */
  function BinPow(a: int, n: int): (r: int)
    ensures n >= 0 ==> r == Pow(a, n)
    ensures n < 0 ==> r == 1
    decreases if n >= 0 then n else -n
  {
    if n == 0 then 1
    else if CppRem2(n) == 1 then BinPow(a, n - 1) * a
    else
      var h := CppHalf(n);
      var b := BinPow(a, h);
      if n > 0 then
        PowAdd(a, h, h);
        b * b
      else
        b * b
  }

  /** The only exponent the shapes use: binpow(d, 2) is the square of d. */
  lemma BinPowSquare(d: int)
    ensures BinPow(d, 2) == d * d
  {
    assert Pow(d, 2) == d * Pow(d, 1);
  }
}
