/** Facts about Euclidean remainder used by the ring-buffer and counter wrap-around proofs. */
module Modular {

  lemma MulAtLeast(d: int, m: int)
    requires 1 <= d && 0 < m
    ensures d * m >= m
  {
  }

  lemma ModUnique(x: int, q: int, r: int, m: int)
    requires 0 < m && 0 <= r < m && x == q * m + r
    ensures x % m == r && x / m == q
  {
    var q', r' := x / m, x % m;
    assert x == q' * m + r';
    assert q * m - q' * m == r' - r;
    assert (q - q') * m == q * m - q' * m;
    if q > q' {
      MulAtLeast(q - q', m);
    } else if q < q' {
      assert (q' - q) * m == q' * m - q * m;
      MulAtLeast(q' - q, m);
    }
  }

  lemma ModStep(x: nat, m: nat)
    requires 0 < m
    ensures (x % m + 1) % m == (x + 1) % m
  {
    var q, r := x / m, x % m;
    if r + 1 < m {
      ModUnique(x + 1, q, r + 1, m);
      ModUnique(r + 1, 0, r + 1, m);
    } else {
      ModUnique(x + 1, q + 1, 0, m);
      ModUnique(r + 1, 1, 0, m);
    }
  }

  lemma ModShift(x: nat, k: nat, m: nat)
    requires 0 < m
    ensures (x + k * m) % m == x % m
  {
    ModUnique(x + k * m, x / m + k, x % m, m);
  }

  /** Subtracting after reducing gives the same remainder as subtracting first. */
  lemma ModSub(x: int, y: int, m: int)
    requires 0 < m
    ensures (x % m - y) % m == (x - y) % m
  {
    var q, r := x / m, x % m;
    var q', r' := (x - y) / m, (x - y) % m;
    ModUnique(r - y, q' - q, r', m);
  }

  /** A remainder is below the modulus and no larger than the number itself. */
  lemma ModBound(x: nat, m: nat)
    requires 0 < m
    ensures 0 <= x % m < m && x % m <= x
  {
    var q := x / m;
    assert x == q * m + x % m;
    if q > 0 {
      MulAtLeast(q, m);
    }
  }

  /** One more factor: `c (k + 1) = c k + c`. */
  lemma MulStep(c: int, k: int)
    ensures c * (k + 1) == c * k + c
  {
  }

  /** Multiplying by a non-negative factor keeps order. */
  lemma MulMono(c: nat, x: int, y: int)
    requires x <= y
    ensures c * x <= c * y
  {
    assert c * y - c * x == c * (y - x);
  }
}
