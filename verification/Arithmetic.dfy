/** Small functions on numbers, and multiplication and Euclidean division by a variable in steps the solver takes. */
module Arithmetic {
  function Min(a: int, b: int): (m: int)
    ensures m <= a && m <= b && (m == a || m == b)
  {
    if a < b then a else b
  }

  function Max(a: int, b: int): (m: int)
    ensures m >= a && m >= b && (m == a || m == b)
  {
    if a < b then b else a
  }

  function AtLeastZero(x: int): (n: nat)
    ensures n >= x && (n == 0 || n == x)
  {
    if x < 0 then 0 else x
  }

  function Abs(x: real): (magnitude: real)
    ensures magnitude >= 0.0 && (magnitude == x || magnitude == -x)
  {
    if x < 0.0 then -x else x
  }

  function Pow2(n: nat): (p: nat)
    ensures p >= 1
  {
    if n == 0 then 1 else 2 * Pow2(n - 1)
  }

  lemma {:induction false} Pow2Grows(m: nat, n: nat)
    requires m <= n
    ensures Pow2(m) <= Pow2(n)
  {
    if m < n { Pow2Grows(m, n - 1); }
  }

  lemma MulOrder(a: int, b: int, m: int)
    requires m >= 0 && a <= b
    ensures a * m <= b * m
  {
  }

  lemma Distribute(a: int, b: int, m: int)
    ensures (a + b) * m == a * m + b * m
    ensures (a - b) * m == a * m - b * m
  {
  }

  /** Quotient and remainder are unique. */
  lemma DivisionUnique(q: int, r: int, q': int, r': int, m: int)
    requires m > 0 && 0 <= r < m && 0 <= r' < m
    requires q * m + r == q' * m + r'
    ensures q == q' && r == r'
  {
    Distribute(q, q', m);
    if q > q' { MulOrder(1, q - q', m); }
    if q < q' { MulOrder(q - q', -1, m); }
  }

  lemma DivisionIs(x: int, q: int, r: int, m: int)
    requires m > 0 && 0 <= r < m && x == q * m + r
    ensures x / m == q && x % m == r
  {
    var q', r' := x / m, x % m;
    assert x == m * q' + r';
    assert m * q' == q' * m;
    DivisionUnique(q, r, q', r', m);
  }
}
