/** Facts about quotients and remainders that the solver needs spelled out. */
module Division {

  lemma WholePeriods(period: nat, a: nat, b: nat)
    ensures a < b ==> period * (a + 1) <= period * b
  {
    if a < b {
      assert period * b == period * (a + 1) + period * (b - (a + 1));
    }
  }

  lemma QuotientUnique(n: nat, d: nat, q: nat, r: nat)
    requires r < d && n == d * q + r
    ensures n / d == q && n % d == r
  {
    var q', r' := n / d, n % d;
    assert n == d * q' + r';
    WholePeriods(d, q, q');
    WholePeriods(d, q', q);
  }

  lemma NextMultiple(d: nat, q: nat, n: nat)
    requires n + 1 == d * q + d
    ensures n + 1 == d * (q + 1) + 0
  {}

  lemma DivisionStep(n: nat, d: nat)
    requires d > 0
    ensures if n % d == d - 1 then (n + 1) % d == 0 && (n + 1) / d == n / d + 1
            else (n + 1) % d == n % d + 1 && (n + 1) / d == n / d
  {
    if n % d == d - 1 {
      NextMultiple(d, n / d, n);
      QuotientUnique(n + 1, d, n / d + 1, 0);
    } else {
      QuotientUnique(n + 1, d, n / d, n % d + 1);
    }
  }
}
