/** Quotients and remainders. */
module Division {

  lemma ResidueUnique(n: int, m: nat, q: int, r: nat)
    requires r < m && n == q * m + r
    ensures n % m == r && n / m == q
  {
    assert n == n / m * m + n % m;
    assert (q - n / m) * m == n % m - r;
    MultipleOrZero(q - n / m, m);
  }

  lemma MultipleOrZero(k: int, m: nat)
    ensures k >= 1 ==> k * m >= m
    ensures k <= -1 ==> k * m + m <= 0
  {
  }
}
