/** Uniqueness of quotient and remainder. */
module Division {

  lemma MultiplesGrow(d: int, n: nat)
    ensures d >= 1 ==> d * n >= n
    ensures d <= -1 ==> d * n + n <= 0
  {
  }

  lemma QuotientIsUnique(q: nat, n: nat, r: nat)
    requires r < n
    ensures (q * n + r) / n == q && (q * n + r) % n == r
  {
    var x := q * n + r;
    assert x / n * n + x % n == x;
    assert (q - x / n) * n == x % n - r;
    MultiplesGrow(q - x / n, n);
  }
}
