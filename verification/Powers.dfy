/** Powers of two, divisibility, and the 32-bit word size of the targets, where
    unsigned long and size_t are 32 bits wide. */
module Powers {

  const WORD := 0x1_0000_0000

  function Pow2(k: nat): (p: nat)
    ensures p > 0
  {
    if k == 0 then 1 else 2 * Pow2(k - 1)
  }

  function Product(d: nat, q: int): int {
    d * q
  }

  ghost predicate Divides(d: nat, n: int) {
    exists q :: Product(d, q) == n
  }

  lemma Quotient(d: nat, n: int) returns (q: int)
    requires Divides(d, n)
    ensures n == d * q
  {
    q :| Product(d, q) == n;
  }

  lemma Multiple(d: nat, q: int)
    ensures Divides(d, d * q)
  {
    assert Product(d, q) == d * q;
  }

  lemma ScaledBounds(d: nat, k: int)
    ensures k >= 1 ==> d * k >= d
    ensures k <= -1 ==> d * k <= 0 - d
  {
    if k >= 1 {
      assert d * k == d + d * (k - 1);
    } else if k <= -1 {
      assert d * k == 0 - d + d * (k + 1);
    }
  }

  /** Whatever divides n with a remainder is its quotient. */
  lemma DivisionIsUnique(n: nat, d: nat, q: nat, r: nat)
    requires n == d * q + r && r < d
    ensures n / d == q && n % d == r
  {
    var t := n / d - q;
    assert d * t == r - n % d;
    ScaledBounds(d, t);
  }

  /** Congruence modulo d is divisibility of the difference. */
  lemma CongruentIsDivides(d: nat, x: int, y: int)
    requires d > 0
    ensures x % d == y % d <==> Divides(d, x - y)
  {
    var t := x / d - y / d;
    assert x - y == d * t + (x % d - y % d);
    if x % d == y % d {
      Multiple(d, t);
    }
    if Divides(d, x - y) {
      var q := Quotient(d, x - y);
      ScaledBounds(d, q - t);
      assert d * (q - t) == x % d - y % d;
    }
  }

  lemma DividesIsMod(d: nat, n: int)
    requires d > 0
    ensures Divides(d, n) <==> n % d == 0
  {
    CongruentIsDivides(d, n, 0);
  }

  lemma Pow2Splits(j: nat, k: nat)
    requires j <= k
    ensures Divides(Pow2(j), Pow2(k))
  {
    if j == k {
      Multiple(Pow2(j), 1);
    } else {
      Pow2Splits(j, k - 1);
      var q := Quotient(Pow2(j), Pow2(k - 1));
      Multiple(Pow2(j), 2 * q);
    }
  }

  lemma DividesTransitive(a: nat, b: nat, n: int)
    requires Divides(a, b) && Divides(b, n)
    ensures Divides(a, n)
  {
    var p := Quotient(a, b);
    var q := Quotient(b, n);
    assert n == a * (p * q);
    Multiple(a, p * q);
  }

  lemma OddNotDivisible(k: nat, n: int)
    requires k > 0 && n % 2 == 1
    ensures !Divides(Pow2(k), n)
  {
    if Divides(Pow2(k), n) {
      Pow2Splits(1, k);
      DividesTransitive(2, Pow2(k), n);
      DividesIsMod(2, n);
    }
  }

  lemma OddTimesOdd(s: int, o: int)
    requires s % 2 == 1 && o % 2 == 1
    ensures (s * o) % 2 == 1
  {
    var h := s / 2;
    assert s == 2 * h + 1;
    DoublePlusOne(h, o);
    EvenPlusOdd(h * o, o);
  }

  lemma DoublePlusOne(h: int, o: int)
    ensures (2 * h + 1) * o == 2 * (h * o) + o
  {
  }

  lemma EvenPlusOdd(x: int, o: int)
    requires o % 2 == 1
    ensures (2 * x + o) % 2 == 1
  {
  }

  /** An odd factor contributes nothing to divisibility by a power of two. */
  lemma {:induction false} OddFactorCancels(k: nat, s: int, o: int)
    requires o % 2 == 1
    ensures Divides(Pow2(k), s * o) <==> Divides(Pow2(k), s)
  {
    if k == 0 {
      Multiple(1, s);
      Multiple(1, s * o);
    } else if s % 2 == 1 {
      OddTimesOdd(s, o);
      OddNotDivisible(k, s * o);
      OddNotDivisible(k, s);
    } else {
      var h := s / 2;
      assert s * o == 2 * (h * o) by {
        assert s == 2 * h;
      }
      HalvesDivide(k, h * o);
      OddFactorCancels(k - 1, h, o);
      HalvesDivide(k, h);
    }
  }

  /** One factor of two peels off both sides. */
  lemma HalvesDivide(k: nat, n: int)
    requires k > 0
    ensures Divides(Pow2(k), 2 * n) <==> Divides(Pow2(k - 1), n)
  {
    if Divides(Pow2(k), 2 * n) {
      var q := Quotient(Pow2(k), 2 * n);
      assert n == Pow2(k - 1) * q;
      Multiple(Pow2(k - 1), q);
    }
    if Divides(Pow2(k - 1), n) {
      var q := Quotient(Pow2(k - 1), n);
      assert 2 * n == Pow2(k) * q;
      Multiple(Pow2(k), q);
    }
  }

  lemma WordIsPow2()
    ensures Pow2(32) == WORD && Pow2(16) == 0x1_0000
  {
    assert Pow2(8) == 256;
    assert Pow2(16) == 0x1_0000;
    assert Pow2(24) == 0x100_0000;
  }

  lemma {:induction false} Pow2Adds(j: nat, k: nat)
    ensures Pow2(j + k) == Pow2(j) * Pow2(k)
  {
    if k > 0 {
      Pow2Adds(j, k - 1);
      assert Pow2(j) * (2 * Pow2(k - 1)) == 2 * (Pow2(j) * Pow2(k - 1));
    }
  }
}
