/**
 * Amounts are whole cents. Splitting an amount into `n` equal installments rounds the
 * exact quotient to the nearest cent, ties to the even cent (Python's `round(x, 2)`).
 */
module Money {

  function Abs(x: int): int { if x < 0 then -x else x }

  /** `round(amount / n, 2)` in cents: the cent nearest to amount/n, ties to even. */
  function Share(amount: int, n: int): (r: int)
    requires n >= 1
    ensures 2 * Abs(amount - n * r) <= n
    ensures 2 * Abs(amount - n * r) == n ==> r % 2 == 0
  {
    var q := amount / n;
    var rem := amount % n;
    assert amount == n * q + rem;
    assert amount - n * (q + 1) == rem - n;
    if 2 * rem < n then q
    else if 2 * rem > n then q + 1
    else if q % 2 == 0 then q
    else q + 1
  }

  /** The two properties of `Share` pin it down: no other cent count satisfies both. */
  lemma ShareUnique(amount: int, n: int, c: int)
    requires n >= 1
    requires 2 * Abs(amount - n * c) <= n
    requires 2 * Abs(amount - n * c) == n ==> c % 2 == 0
    ensures c == Share(amount, n)
  {
    var r := Share(amount, n);
    var k := r - c;
    assert (amount - n * c) - (amount - n * r) == n * k by { Distribute(n, r, c); }
    CloseMultiples(amount - n * c, amount - n * r, n, k);
    // k != 0 would put both counts at exactly half of n, making both even: they
    // cannot then be one apart.
  }

  lemma Distribute(n: int, r: int, c: int)
    ensures n * r - n * c == n * (r - c)
  {
  }

  /** Two distances within n/2 of zero differ by less than 2n; equal halves when they differ by n. */
  lemma CloseMultiples(dc: int, dr: int, n: int, k: int)
    requires n >= 1
    requires dc - dr == n * k
    requires 2 * Abs(dc) <= n && 2 * Abs(dr) <= n
    ensures -1 <= k <= 1
    ensures k != 0 ==> 2 * Abs(dc) == n && 2 * Abs(dr) == n
  {
    if k >= 2 {
      MulMono(n, 2, k);
    } else if k <= -2 {
      MulMono(n, k, -2);
    }
  }

  lemma MulMono(n: int, a: int, b: int)
    requires n >= 0 && a <= b
    ensures n * a <= n * b
  {
  }

  /** One installment carries the whole amount. */
  lemma ShareOfOne(amount: int)
    ensures Share(amount, 1) == amount
  {
  }

  /** An amount that divides evenly is split exactly. */
  lemma ShareExact(amount: int, n: int)
    requires n >= 1 && amount % n == 0
    ensures Share(amount, n) == amount / n
    ensures n * Share(amount, n) == amount
  {
  }

  /**
   * The shares are not reconciled with the total: n shares miss the amount by at most
   * half a cent per installment. Splitting 100.00 three ways gives 33.33 three times,
   * one cent short.
   */
  lemma ShareDrift(amount: int, n: int)
    requires n >= 1
    ensures 2 * Abs(amount - n * Share(amount, n)) <= n
    ensures Share(10000, 3) == 3333 && 3 * Share(10000, 3) == 9999
  {
  }
}
