/** Remainders: what the ring positions and wrapping counters need. */
module Modular {

  /** The number of values of a 32-bit word. */
  const WORD := 0x1_0000_0000

  lemma Multiples(d: int, m: nat)
    ensures d >= 1 ==> d * m >= m
    ensures d >= 2 ==> d * m >= 2 * m
    ensures d <= -1 ==> d * m + m <= 0
  {
    if d >= 2 {
      assert d * m == (d - 2) * m + 2 * m;
    } else if d <= -1 {
      assert d * m == (d + 1) * m - m;
    }
  }

  lemma MulGrows(q: nat, p: nat)
    requires p >= 1
    ensures q * p >= q
  {
  }

  lemma QuotientBelow(x: nat, p: nat)
    requires p > 0
    ensures x / p <= x
  {
    MulGrows(x / p, p);
  }

  /** Quotient and remainder are unique. */
  lemma ModUnique(a: int, m: nat, q: int, r: int)
    requires m > 0 && a == q * m + r && 0 <= r < m
    ensures a % m == r && a / m == q
  {
    var d := q - a / m;
    assert d * m == a % m - r;
    Multiples(d, m);
  }

  lemma Reassociate(a: int, b: int, c: int)
    ensures a * (b * c) == b * (a * c)
  {
  }

  /** Dividing by a byte's range first, and by b then. */
  lemma DivideTwice(n: nat, b: nat)
    requires b > 0
    ensures n / 256 / b == n / (256 * b)
  {
    var m, s := n / 256, n % 256;
    var q, r := m / b, m % b;
    Reassociate(q, 256, b);
    ModUnique(n, 256 * b, q, 256 * r + s);
  }

  /** Counting up by one, modulo m. */
  lemma ModNext(a: nat, m: nat)
    requires m > 0
    ensures (a + 1) % m == if a % m + 1 == m then 0 else a % m + 1
    ensures (a % m + 1) % m == (a + 1) % m
  {
    var q, r := a / m, a % m;
    assert a == q * m + r;
    if r + 1 == m {
      assert a + 1 == (q + 1) * m + 0;
      ModUnique(a + 1, m, q + 1, 0);
    } else {
      ModUnique(a + 1, m, q, r + 1);
    }
  }

  /** Two numbers less than m apart have the same remainder only if they are equal. */
  lemma ModApart(a: int, b: int, m: nat)
    requires m > 0 && 0 <= a - b < m
    ensures a % m == b % m <==> a == b
  {
    var d := a / m - b / m;
    assert d * m == (a - b) - (a % m - b % m);
    Multiples(d, m);
  }

  /** The distance between two numbers less than m apart, from their remainders. */
  lemma ModDistance(a: int, b: int, m: nat)
    requires m > 0 && 0 <= a - b < m
    ensures a - b == if a % m >= b % m then a % m - b % m else a % m + m - b % m
  {
    var d := a / m - b / m;
    assert d * m == (a - b) - (a % m - b % m);
    Multiples(d, m);
  }

  /** The position after h is that of t exactly when h is as far ahead as it can be. */
  lemma ModFull(h: nat, t: nat, n: nat)
    requires n > 0 && t <= h < t + n
    ensures (h + 1) % n == t % n <==> h + 1 == t + n
  {
    if h + 1 == t + n {
      var q := t / n;
      assert h + 1 == (q + 1) * n + t % n;
      ModUnique(h + 1, n, q + 1, t % n);
    } else {
      ModApart(h + 1, t, n);
    }
  }
}
