// Multiplication and division facts shared by the loop proofs.
module Arithmetic {
  lemma {:induction false} TimesMonotone(a: nat, b: nat, g: nat)
    requires a <= b
    ensures a * g <= b * g
    decreases b - a
  {
    if a < b {
      TimesMonotone(a, b - 1, g);
    }
  }

  lemma TimesNext(k: nat, m: nat)
    ensures (k + 1) * m == k * m + m
  {
  }

  /** A number written as multiple plus remainder divides as written. */
  lemma Quotient(q: nat, r: nat, m: nat)
    requires r < m
    ensures (q * m + r) / m == q && (q * m + r) % m == r
  {
    var n := q * m + r;
    assert n == (n / m) * m + n % m;
    if n / m < q {
      TimesMonotone(n / m + 1, q, m);
    } else if n / m > q {
      TimesMonotone(q + 1, n / m, m);
    }
  }

  /** Division and remainder of the successor. */
  lemma Successor(n: nat, m: nat)
    requires m > 0
    ensures if n % m + 1 == m then (n + 1) / m == n / m + 1 && (n + 1) % m == 0
            else (n + 1) / m == n / m && (n + 1) % m == n % m + 1
  {
    var q := n / m;
    assert n == q * m + n % m;
    if n % m + 1 == m {
      assert n + 1 == (q + 1) * m + 0;
      Quotient(q + 1, 0, m);
    } else {
      assert n + 1 == q * m + (n % m + 1);
      Quotient(q, n % m + 1, m);
    }
  }
}
