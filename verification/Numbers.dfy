/** Multiples and quotients of whole numbers. */
module Numbers {
  lemma {:induction false} MulCancel(a: int, b: int, n: nat)
    requires a * n < b * n
    ensures a < b
  {
    assert (a - b) * n == a * n - b * n;
  }

  lemma {:induction false} MultiplesGrow(p: int, q: int, n: nat)
    requires p <= q
    ensures p * n <= q * n
  {
    assert (q - p) * n == q * n - p * n;
  }

  lemma {:induction false} Distributes(a: int, b: int, n: int)
    ensures (a - b) * n == a * n - b * n && a * (n + 1) == a * n + a
  {
  }

  /** The quotient is the only number whose multiple is at most n and less than d below it. */
  lemma {:induction false} DivideBy(n: nat, d: nat, q: nat, r: nat)
    requires n == q * d + r && r < d
    ensures n / d == q && n % d == r
  {
    var e := n / d;
    assert n == e * d + n % d;
    assert (e + 1) * d == e * d + d && (q + 1) * d == q * d + d;
    MulCancel(e, q + 1, d);
    MulCancel(q, e + 1, d);
  }
}
