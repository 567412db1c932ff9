/**
 Quotients and remainders.
 */
module Remainders {

  lemma ProductBound(a: nat, m: nat)
    requires a >= 1
    ensures a * m >= m
  {
  }

  lemma Distributes(a: int, b: int, m: int)
    ensures (a - b) * m == a * m - b * m
  {
  }

  /** Quotient and remainder are determined by their defining equation. */
  lemma RemainderUnique(v: nat, m: nat, q: nat, r: nat)
    requires m > 0 && r < m && v == q * m + r
    ensures v % m == r && v / m == q
  {
    var q', r' := v / m, v % m;
    assert v == q' * m + r';
    Distributes(q', q, m);
    Distributes(q, q', m);
    if q < q' {
      ProductBound(q' - q, m);
    } else if q' < q {
      ProductBound(q - q', m);
    }
  }

  lemma RemainderOfSum(q: nat, n: nat, r: nat)
    requires r < n
    ensures (q * n + r) % n == r
  {
    RemainderUnique(q * n + r, n, q, r);
  }

  /** The number from start on that leaves remainder k. */
  function Residue(start: nat, n: nat, k: nat): (r: nat)
    requires k < n
    ensures start <= r < start + n && r % n == k
  {
    var m := start % n;
    RemainderOfSum(start / n, n, k);
    RemainderOfSum(start / n + 1, n, k);
    assert start == start / n * n + m;
    assert (start / n + 1) * n == start / n * n + n;
    if m <= k then start + (k - m) else start + (k + n - m)
  }

  /** Of n successive numbers no two leave the same remainder. */
  lemma OneResidue(start: nat, n: nat, a: nat, b: nat)
    requires n > 0 && start <= a < start + n && start <= b < start + n && a % n == b % n
    ensures a == b
  {
    if a < b {
      NotWhole(a, b, n);
    } else if b < a {
      NotWhole(b, a, n);
    }
  }

  lemma NotWhole(a: nat, b: nat, n: nat)
    requires n > 0 && a < b < a + n
    ensures a % n != b % n
  {
    var q, r, d := a / n, a % n, b - a;
    assert a == q * n + r && (q + 1) * n == q * n + n;
    if r + d < n {
      RemainderOfSum(q, n, r + d);
    } else {
      RemainderOfSum(q + 1, n, r + d - n);
    }
  }
}
