/** The 32-bit arithmetic of the ring buffer: rounding capacities up to a power of two by
    bit smearing, masking instead of dividing, and counting across the wrap-around.
    A word is a natural number below 2^32; bitwise operations are defined bit by bit. */
module RingArithmetic {
  import opened Modular

  function Pow2(k: nat): (p: nat)
    ensures p > 0
  {
    if k == 0 then 1 else 2 * Pow2(k - 1)
  }

  function And(a: nat, b: nat): nat {
    if a == 0 || b == 0 then 0 else (a % 2) * (b % 2) + 2 * And(a / 2, b / 2)
  }

  function Or(a: nat, b: nat): nat
    decreases a + b
  {
    if a == 0 then b else if b == 0 then a
    else (if a % 2 == 1 || b % 2 == 1 then 1 else 0) + 2 * Or(a / 2, b / 2)
  }

  // ----- powers of two -----

  lemma {:induction false} Pow2Sum(a: nat, b: nat)
    ensures Pow2(a + b) == Pow2(a) * Pow2(b)
  {
    if a > 0 {
      Pow2Sum(a - 1, b);
      assert (2 * Pow2(a - 1)) * Pow2(b) == 2 * (Pow2(a - 1) * Pow2(b));
    }
  }

  lemma {:induction false} Pow2Monotone(a: nat, b: nat)
    requires a <= b
    ensures Pow2(a) <= Pow2(b)
  {
    if a < b {
      Pow2Monotone(a, b - 1);
    }
  }

  predicate IsPowerOfTwo(n: nat) {
    n > 0 && And(n, n - 1) == 0
  }

  lemma {:induction false} AndSelf(n: nat)
    ensures And(n, n) == n
  {
    if n > 0 {
      AndSelf(n / 2);
    }
  }

  ghost predicate IsPower(n: nat) {
    exists k: nat :: n == Pow2(k)
  }

  lemma DoubleIsPower(n: nat)
    requires n > 0
    ensures IsPower(2 * n) <==> IsPower(n)
  {
    if k: nat :| n == Pow2(k) {
      assert 2 * n == Pow2(k + 1);
    }
    if k: nat :| 2 * n == Pow2(k) {
      assert n == Pow2(k - 1);
    }
  }

  lemma OddIsNotPower(n: nat)
    requires n > 1 && n % 2 == 1
    ensures !IsPower(n)
  {
    forall k: nat ensures n != Pow2(k) {
      assert k == 0 || Pow2(k) == 2 * Pow2(k - 1);
    }
  }

  /** The subtract-and-mask test recognises exactly the powers of two. */
  lemma {:induction false} PowerOfTwoTest(n: nat)
    ensures IsPowerOfTwo(n) <==> IsPower(n)
  {
    if n == 1 {
      assert n == Pow2(0);
    } else if n > 1 && n % 2 == 1 {
      AndSelf(n / 2);
      assert (n - 1) / 2 == n / 2;
      OddIsNotPower(n);
    } else if n > 1 {
      PowerOfTwoTest(n / 2);
      assert (n - 1) / 2 == n / 2 - 1 && (n - 1) % 2 == 1;
      DoubleIsPower(n / 2);
    }
  }

  // ----- masking -----

  lemma ModSplit(x: nat, m: nat)
    requires m > 0
    ensures x % (2 * m) == x % 2 + 2 * (x / 2 % m)
  {
    var q, r := x / 2 / m, x / 2 % m;
    assert x / 2 == q * m + r;
    assert x == q * (2 * m) + (x % 2 + 2 * r);
    ModUnique(x, 2 * m, q, x % 2 + 2 * r);
  }

  lemma AndOddMask(x: nat, m: nat)
    requires m > 0
    ensures And(x, 2 * m - 1) == x % 2 + 2 * And(x / 2, m - 1)
  {
    assert (2 * m - 1) % 2 == 1 && (2 * m - 1) / 2 == m - 1;
  }

  /** Masking with a power of two less one is the remainder. */
  lemma {:induction false} MaskIsMod(x: nat, k: nat)
    ensures And(x, Pow2(k) - 1) == x % Pow2(k)
  {
    if k > 0 {
      var m := Pow2(k - 1);
      ModSplit(x, m);
      MaskIsMod(x / 2, k - 1);
      AndOddMask(x, m);
    }
  }

  // ----- smearing -----

  function BitLength(x: nat): (w: nat)
    ensures x < Pow2(w)
    ensures x > 0 ==> w > 0 && Pow2(w - 1) <= x
  {
    if x == 0 then 0 else 1 + BitLength(x / 2)
  }

  lemma {:induction false} OrBounds(a: nat, b: nat, k: nat)
    requires a < Pow2(k) && b < Pow2(k)
    ensures a <= Or(a, b) < Pow2(k) && b <= Or(a, b)
  {
    if a > 0 && b > 0 {
      OrBounds(a / 2, b / 2, k - 1);
    }
  }

  /** High bits pass through an or with a shorter word. */
  lemma {:induction false} OrSplit(high: nat, a: nat, b: nat, k: nat)
    requires a < Pow2(k) && b < Pow2(k)
    ensures Or(high * Pow2(k) + a, b) == high * Pow2(k) + Or(a, b)
  {
    if k > 0 {
      hide Or;
      var h := high * Pow2(k - 1);
      assert high * Pow2(k) == 2 * h;
      assert (2 * h + a) / 2 == h + a / 2 && (2 * h + a) % 2 == a % 2;
      OrSplit(high, a / 2, b / 2, k - 1);
      OrStep(2 * h + a, b);
      OrStep(a, b);
    }
  }

  lemma OrStep(a: nat, b: nat)
    ensures Or(a, b) == (if a % 2 == 1 || b % 2 == 1 then 1 else 0) + 2 * Or(a / 2, b / 2)
  {
  }

  /** What may still be missing below the top s bits of a w-bit word. */
  function Below(w: nat, s: nat): nat {
    if s <= w then Pow2(w - s) else 1
  }

  /** A word of w bits whose top s bits are set. */
  predicate TopSet(x: nat, w: nat, s: nat) {
    Pow2(w) - Below(w, s) <= x < Pow2(w)
  }

  lemma ShiftRange(x: nat, p: nat, high: nat, gap: nat)
    requires p > 0 && p * high - p * gap <= x < p * high
    ensures high - gap <= x / p < high
  {
    var z, r := x / p, x % p;
    assert x == z * p + r;
    Multiples(z - high, p);
    assert (z - high) * p == z * p - p * high;
    Multiples(high - gap - z, p);
    assert (high - gap - z) * p == p * high - p * gap - z * p;
  }

  lemma ShiftedTop(x: nat, w: nat, s: nat)
    requires s < w && TopSet(x, w, s)
    ensures Pow2(w - s) - Below(w, 2 * s) <= x / Pow2(s) < Pow2(w - s)
  {
    hide Pow2;
    var p, high := Pow2(s), Pow2(w - s);
    Pow2Sum(s, w - s);
    if 2 * s <= w {
      Pow2Sum(s, w - 2 * s);
    } else {
      Pow2Monotone(w - s, s);
    }
    ShiftRange(x, p, high, Below(w, 2 * s));
  }

  /** One smearing step doubles the number of set top bits. */
  lemma SmearStep(x: nat, w: nat, s: nat)
    requires s > 0 && TopSet(x, w, s)
    ensures TopSet(Or(x, x / Pow2(s)), w, 2 * s)
  {
    hide Pow2, Or;
    var z := x / Pow2(s);
    if s >= w {
      Pow2Zero();
      QuotientBelow(x, Pow2(s));
      OrBounds(x, z, w);
    } else {
      var k := w - s;
      ShiftedTop(x, w, s);
      Pow2Sum(s, k);
      var r := x - (Pow2(w) - Pow2(k));
      assert (Pow2(s) - 1) * Pow2(k) == Pow2(w) - Pow2(k);
      OrSplit(Pow2(s) - 1, r, z, k);
      OrBounds(r, z, k);
    }
  }

  lemma Pow2Zero()
    ensures Pow2(0) == 1
  {
  }

  /** Rounding up: the least power of two, or zero when that does not fit a word. */
  method NextPowerOfTwo(capacity: nat) returns (r: nat)
    requires capacity < WORD
    ensures capacity == 0 ==> r == 1
    ensures 1 <= capacity <= Pow2(31) ==> IsLeastPower(capacity, r)
    ensures Pow2(31) < capacity ==> r == 0
  {
    hide Or, Pow2, BitLength, IsLeastPower;
    if capacity == 0 {
      return 1;
    }
    var n := capacity - 1;
    n := Or(n, n / 2);
    n := Or(n, n / 4);
    n := Or(n, n / 16);
    n := Or(n, n / 256);
    n := Or(n, n / 65536);
    Smeared(capacity - 1);
    LeastPower(capacity);
    assert n == Smear(capacity - 1);
    r := (n + 1) % WORD;
  }

  ghost predicate IsLeastPower(n: nat, p: nat) {
    IsPower(p) && n <= p && forall k: nat :: n <= Pow2(k) ==> p <= Pow2(k)
  }

  function Smear(x: nat): nat {
    var a := Or(x, x / 2);
    var b := Or(a, a / 4);
    var c := Or(b, b / 16);
    var d := Or(c, c / 256);
    Or(d, d / 65536)
  }

  lemma Powers()
    ensures Pow2(1) == 2 && Pow2(2) == 4 && Pow2(4) == 16 && Pow2(8) == 256 && Pow2(16) == 65536
    ensures Pow2(31) == 0x8000_0000 && Pow2(32) == WORD
  {
    assert Pow2(8) == 256;
    Pow2Sum(8, 8);
    Pow2Sum(16, 8);
    Pow2Sum(24, 7);
  }

  lemma Smeared(x: nat)
    requires x < WORD
    ensures Smear(x) == Pow2(BitLength(x)) - 1
  {
    Powers();
    if x > 0 {
      var w := BitLength(x);
      assert TopSet(x, w, 1);
      SmearStep(x, w, 1);
      var a := Or(x, x / 2);
      SmearStep(a, w, 2);
      var b := Or(a, a / 4);
      SmearStep(b, w, 4);
      var c := Or(b, b / 16);
      SmearStep(c, w, 8);
      var d := Or(c, c / 256);
      SmearStep(d, w, 16);
      WordLength(x);
    }
  }

  lemma WordLength(x: nat)
    requires x < WORD
    ensures BitLength(x) <= 32
    ensures x < Pow2(31) ==> BitLength(x) <= 31
    ensures x >= Pow2(31) ==> BitLength(x) == 32
  {
    Powers();
    var w := BitLength(x);
    if w > 32 {
      Pow2Monotone(32, w - 1);
    }
    if w == 32 {
      Pow2Monotone(31, w - 1);
    } else if w < 32 {
      Pow2Monotone(w, 31);
    }
  }

  lemma LeastPower(n: nat)
    requires 1 <= n < WORD
    ensures n <= Pow2(31) ==> IsLeastPower(n, Pow2(BitLength(n - 1))) && Pow2(BitLength(n - 1)) < WORD
    ensures n > Pow2(31) ==> Pow2(BitLength(n - 1)) == WORD
  {
    hide Pow2;
    var w := BitLength(n - 1);
    Powers();
    WordLength(n - 1);
    if n <= Pow2(31) {
      Pow2Monotone(w, 31);
      forall k: nat | n <= Pow2(k) ensures Pow2(w) <= Pow2(k) {
        if k < w {
          Pow2Monotone(k, w - 1);
        } else {
          Pow2Monotone(w, k);
        }
      }
    }
  }

  // ----- counting -----

  /** Elements in the ring: index difference modulo 2^32, masked. */
  function Count(head: nat, tail: nat, mask: nat): nat {
    And((head - tail) % WORD, mask)
  }

  lemma CountIsDistance(head: nat, tail: nat, k: nat)
    requires k <= 31 && tail <= head < tail + Pow2(k)
    ensures Count(head % Pow2(k), tail % Pow2(k), Pow2(k) - 1) == head - tail
  {
    hide Pow2, And;
    var n, p := Pow2(k), Pow2(32 - k);
    var h, t := head % n, tail % n;
    Powers();
    Pow2Monotone(k, 31);
    ModDistance(head, tail, n);
    MaskIsMod((h - t) % WORD, k);
    Pow2Sum(k, 32 - k);
    WrapsRound(h, t, n, p);
  }

  /** Subtraction modulo a multiple of n, then modulo n. */
  lemma WrapsRound(h: nat, t: nat, n: nat, p: nat)
    requires n * p == WORD && h < n && t < n <= WORD
    ensures (h - t) % WORD % n == if h >= t then h - t else h - t + n
  {
    if h >= t {
      ModUnique(h - t, WORD, 0, h - t);
      ModUnique(h - t, n, 0, h - t);
    } else {
      ModUnique(h - t, WORD, -1, h - t + WORD);
      assert h - t + WORD == (p - 1) * n + (h - t + n);
      ModUnique(h - t + WORD, n, p - 1, h - t + n);
    }
  }
}
