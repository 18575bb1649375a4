/** A quotient and a remainder are determined by the equation between them. */
module Division {
  lemma Multiples(n: int, d: int)
    requires n > 0
    ensures d >= 1 ==> n * d >= n
    ensures d == 0 ==> n * d == 0
    ensures d <= -1 ==> n * d <= -n
  {
  }

  lemma DivisionIs(a: int, n: int, q: int, r: int)
    requires n > 0 && 0 <= r < n && a == n * q + r
    ensures a / n == q && a % n == r
  {
    var d := a / n - q;
    assert n * d == r - a % n by {
      assert a == n * (a / n) + a % n;
      assert n * (a / n - q) == n * (a / n) - n * q;
    }
    Multiples(n, d);
  }
}
