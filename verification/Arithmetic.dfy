/** Integer division with a positive divisor, with the few facts the other modules need. */
module Arithmetic {

  function Multiple(k: nat, v: nat): nat { k * v }

  function Quotient(n: nat, v: nat): nat
    requires v > 0
  {
    n / v
  }

  function Remainder(n: nat, v: nat): (r: nat)
    requires v > 0
    ensures r < v && n == Quotient(n, v) * v + r
  {
    n % v
  }

  lemma AtLeastOnce(k: int, v: nat)
    requires k >= 1
    ensures k * v >= v
  {
    assert (k - 1) * v >= 0;
    assert k * v == (k - 1) * v + v;
  }

  lemma Uniquely(n: nat, v: nat, q: nat, r: nat)
    requires v > 0 && n == q * v + r && r < v
    ensures n / v == q && n % v == r
  {
    var p, m := n / v, n % v;
    assert n == p * v + m && m < v;
    assert (q - p) * v == m - r;
    assert (p - q) * v == r - m;
    if q > p { AtLeastOnce(q - p, v); } else if q < p { AtLeastOnce(p - q, v); }
  }

  /** Counting up, the quotient grows by one exactly at the multiples. */
  lemma DivisionStep(n: nat, v: nat)
    requires v > 0
    ensures Quotient(n + 1, v) == Quotient(n, v) + if (n + 1) % v == 0 then 1 else 0
    ensures (n + 1) % v == 0 ==> n + 1 == Multiple(Quotient(n, v) + 1, v)
  {
    var q, r := n / v, n % v;
    assert n == q * v + r;
    if r + 1 == v {
      assert n + 1 == (q + 1) * v;
      Uniquely(n + 1, v, q + 1, 0);
    } else {
      Uniquely(n + 1, v, q, r + 1);
    }
  }
}
