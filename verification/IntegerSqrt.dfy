/** The integer square root behind quadratic voting. */
module IntegerSqrt {
  import opened MachineInts

  ghost predicate IsSqrt(n: int, r: int) {
    0 <= r && r * r <= n < (r + 1) * (r + 1)
  }

  function Isqrt(n: nat): (r: nat)
    ensures IsSqrt(n, r)
  {
    if n == 0 then 0
    else
      var q := Isqrt(n - 1);
      if (q + 1) * (q + 1) <= n then q + 1 else q
  }

  lemma SqrtOrder(a: int, b: int)
    requires 0 <= a < b
    ensures (a + 1) * (a + 1) <= b * b
  {
    SquareMono(a + 1, b);
  }

  lemma SqrtUnique(n: int, r: int, q: int)
    requires IsSqrt(n, r) && IsSqrt(n, q)
    ensures r == q
  {
    if r < q {
      SqrtOrder(r, q);
    } else if q < r {
      SqrtOrder(q, r);
    }
  }

  /** The binary search of the contract, with its saturating midpoint and checked square. */
  method BinarySearchSqrt(n: int) returns (r: int)
    requires FitsI128(n)
    ensures r == Isqrt(Max(n, 0))
  {
    if n <= 1 {
      SqrtUnique(Max(n, 0), Max(n, 0), Isqrt(Max(n, 0)));
      return Max(n, 0);
    }
    var lo, hi := 0, n;
    assert n < (n + 1) * (n + 1);
    while lo < hi
      invariant 0 <= lo <= hi <= n
      invariant lo * lo <= n < (hi + 1) * (hi + 1)
      decreases hi - lo
    {
      var mid := SatAdd(lo, SatAdd(SatSub(hi, lo), 1) / 2);
      assert lo < mid <= hi;
      if mid * mid <= I128_MAX && mid * mid <= n {
        lo := mid;
      } else {
        hi := SatSub(mid, 1);
      }
    }
    SqrtUnique(n, lo, Isqrt(n));
    r := lo;
  }

  lemma SqrtFits(n: nat)
    ensures Isqrt(n) <= n && (n > 0 ==> Isqrt(n) > 0)
  {
    var r := Isqrt(n);
    assert r > 0 ==> r * r >= r;
  }

  /** Multiplying a balance by k*k multiplies its quadratic weight by about k. */
  lemma QuadraticCompression(n: nat, k: nat)
    requires k > 0
    ensures k * Isqrt(n) <= Isqrt(k * k * n) < k * (Isqrt(n) + 1)
  {
    var r := Isqrt(n);
    ScaleSquare(k, r, n);
    SqrtAtLeast(k * k * n, k * r);
    ScaleStrict(k, r + 1, n);
    SqrtBelow(k * k * n, k * (r + 1));
  }

  lemma SqrtAtLeast(n: nat, a: nat)
    requires a * a <= n
    ensures a <= Isqrt(n)
  {
    if Isqrt(n) < a {
      SqrtOrder(Isqrt(n), a);
    }
  }

  lemma SqrtBelow(n: nat, a: nat)
    requires n < a * a
    ensures Isqrt(n) < a
  {
    if a <= Isqrt(n) {
      SquareMono(a, Isqrt(n));
    }
  }

  lemma SquareMono(a: int, b: int)
    requires 0 <= a <= b
    ensures a * a <= b * b
  {
    assert b * b - a * a == (b - a) * (b + a);
  }

  lemma ScaleSquare(k: nat, r: nat, n: nat)
    requires r * r <= n
    ensures (k * r) * (k * r) <= k * k * n
  {
    assert (k * r) * (k * r) == (k * k) * (r * r);
    MulMono(k * k, r * r, n);
  }

  lemma ScaleStrict(k: nat, r: nat, n: nat)
    requires n < r * r && k > 0
    ensures k * k * n < (k * r) * (k * r)
  {
    assert (k * r) * (k * r) == (k * k) * (r * r);
    assert k * k > 0;
    assert (k * k) * (r * r) - (k * k) * n == (k * k) * (r * r - n);
    assert (k * k) * (r * r - n) > 0;
  }

  lemma MulMono(c: nat, a: int, b: int)
    requires a <= b
    ensures c * a <= c * b
  {
  }
}
