/** The linear congruential generator behind random() and srandom().

    The 32-bit state is x := x * 1103515245 + 12345 (mod 2^32) and a call returns
    the state's upper half.  The theorems are about whole runs of the generator:
    its exact period on every number of low bits, and the exact distribution of
    its results over a full period. */
module RandomSource {
  import opened Powers

  const MULTIPLIER := 1103515245
  const INCREMENT := 12345

  /** One update of random_seed: unsigned long arithmetic wraps at 32 bits. */
  function Next(seed: nat): (x: nat) {
    (seed * MULTIPLIER + INCREMENT) % WORD
  }

  /** The value a call computes from the updated seed: (seed >> 16) & 0x7FFFFFFF. */
  function Output(seed: nat): nat {
    (seed / 0x1_0000) % 0x8000_0000
  }

  /** The seed after n calls. */
  function Nth(seed: nat, n: nat): nat {
    if n == 0 then seed else Next(Nth(seed, n - 1))
  }

  /** random_seed and the two functions that touch it. */
  class Generator {
    var seed: nat

    ghost predicate Valid() reads this {
      seed < WORD
    }

    constructor ()
      ensures Valid() && seed == 1
    {
      seed := 1;
    }

    method Srandom(s: nat)
      requires s < WORD
      modifies this
      ensures Valid() && seed == s
    {
      seed := s;
    }

    method Random() returns (r: nat)
      requires Valid()
      modifies this
      ensures Valid() && seed == Nth(old(seed), 1)
      ensures r == seed / 0x1_0000 && r < 0x1_0000
    {
      seed := (seed * MULTIPLIER + INCREMENT) % WORD;
      r := (seed / 0x1_0000) % 0x8000_0000;
      assert seed == Next(Nth(old(seed), 0));
    }
  }

  /** The generator's own numbers: after seeds 0 and 1, and by how much the next seed grows
      from one seed to the next, with wrap-around. */
  lemma NextInNumbers(seed: nat)
    ensures Next(0) == 12345 && Next(1) == 1103527590
    ensures (Next(seed + 1) - Next(seed)) % WORD == 1103515245
  {
    var x, y := (seed + 1) * MULTIPLIER + INCREMENT, seed * MULTIPLIER + INCREMENT;
    assert x == y + MULTIPLIER;
  }

  // ---------- the generator over the unbounded integers ----------

  function Unbounded(x: int, n: nat): int {
    if n == 0 then x else Unbounded(x, n - 1) * MULTIPLIER + INCREMENT
  }

  function Power(n: nat): int {
    if n == 0 then 1 else MULTIPLIER * Power(n - 1)
  }

  /** 1 + a + ... + a^(n-1). */
  function Sum(n: nat): int {
    if n == 0 then 0 else Sum(n - 1) + Power(n - 1)
  }

  lemma StepMod(x: int)
    ensures ((x % WORD) * MULTIPLIER + INCREMENT) % WORD == (x * MULTIPLIER + INCREMENT) % WORD
  {
    var u, v := (x % WORD) * MULTIPLIER + INCREMENT, x * MULTIPLIER + INCREMENT;
    assert u - v == WORD * (-(x / WORD) * MULTIPLIER);
    Multiple(WORD, -(x / WORD) * MULTIPLIER);
    CongruentIsDivides(WORD, u, v);
  }

  /** The 32-bit state is the unbounded one reduced modulo 2^32. */
  lemma {:induction false} NthIsUnbounded(seed: nat, n: nat)
    requires seed < WORD
    ensures Nth(seed, n) == Unbounded(seed, n) % WORD
  {
    if n > 0 {
      NthIsUnbounded(seed, n - 1);
      StepMod(Unbounded(seed, n - 1));
    }
  }

  lemma {:induction false} SumClosed(n: nat)
    ensures (MULTIPLIER - 1) * Sum(n) == Power(n) - 1
  {
    if n > 0 {
      SumClosed(n - 1);
    }
  }

  /** n steps move x by Sum(n) * ((a-1)x + c). */
  lemma {:induction false} Displacement(x: int, n: nat)
    ensures Unbounded(x, n) - x == Sum(n) * ((MULTIPLIER - 1) * x + INCREMENT)
  {
    if n == 0 {
      assert Sum(0) == 0;
    } else {
      var o := (MULTIPLIER - 1) * x + INCREMENT;
      Displacement(x, n - 1);
      SumClosed(n - 1);
      var s := Sum(n - 1);
      assert Unbounded(x, n) - x == (x + s * o) * MULTIPLIER + INCREMENT - x;
      assert (x + s * o) * MULTIPLIER + INCREMENT - x == s * o * MULTIPLIER + o;
      assert Power(n - 1) == (MULTIPLIER - 1) * s + 1;
      assert Sum(n) * o == (s + Power(n - 1)) * o;
      assert (s + ((MULTIPLIER - 1) * s + 1)) * o == (s * MULTIPLIER + 1) * o;
      assert (s * MULTIPLIER + 1) * o == s * MULTIPLIER * o + o;
    }
  }

  lemma OneModFour(p: int)
    requires p % 4 == 1
    ensures (MULTIPLIER * p) % 4 == 1
  {
    assert MULTIPLIER * p == 4 * (275878811 * p) + p;
  }

  lemma {:induction false} PowerIsOneModFour(n: nat)
    ensures Power(n) % 4 == 1
  {
    if n > 0 {
      PowerIsOneModFour(n - 1);
      OneModFour(Power(n - 1));
    }
  }

  lemma {:induction false} PowerAdds(m: nat, n: nat)
    ensures Power(m + n) == Power(m) * Power(n)
  {
    if n > 0 {
      PowerAdds(m, n - 1);
      assert Power(m) * (MULTIPLIER * Power(n - 1)) == MULTIPLIER * (Power(m) * Power(n - 1));
    } else {
      assert Power(0) == 1;
    }
  }

  lemma {:induction false} SumAdds(m: nat, n: nat)
    ensures Sum(m + n) == Sum(m) + Power(m) * Sum(n)
  {
    if n > 0 {
      SumAdds(m, n - 1);
      PowerAdds(m, n - 1);
      assert Power(m) * Sum(n) == Power(m) * Sum(n - 1) + Power(m) * Power(n - 1);
    } else {
      assert Power(m) * Sum(0) == 0;
    }
  }

  lemma {:induction false} SumParity(n: nat)
    ensures Sum(n) % 2 == n % 2
  {
    if n > 0 {
      SumParity(n - 1);
      PowerIsOneModFour(n - 1);
    }
  }

  /** Doubling n doubles Sum up to an odd factor. */
  lemma SumDoubles(m: nat) returns (o: int)
    ensures o % 2 == 1 && Sum(2 * m) == 2 * (Sum(m) * o)
  {
    SumAdds(m, m);
    PowerIsOneModFour(m);
    o := OddHalf(Sum(m), Power(m), Sum(2 * m));
  }

  lemma OddHalf(s: int, p: int, d: int) returns (o: int)
    requires p % 4 == 1 && d == s + p * s
    ensures o % 2 == 1 && d == 2 * (s * o)
  {
    o := 2 * (p / 4) + 1;
    assert p == 2 * o - 1;
    assert (2 * o - 1) * s == 2 * (s * o) - s;
  }

  /** Sum(n) and n are divisible by the same powers of two. */
  lemma {:induction false} SumValuation(n: nat, k: nat)
    ensures Divides(Pow2(k), Sum(n)) <==> Divides(Pow2(k), n)
    decreases n
  {
    if k == 0 {
      Multiple(1, Sum(n));
      Multiple(1, n);
    } else if n == 0 {
      assert Sum(0) == 0;
    } else if n % 2 == 1 {
      SumParity(n);
      OddNotDivisible(k, Sum(n));
      OddNotDivisible(k, n);
    } else {
      var m := n / 2;
      var o := SumDoubles(m);
      HalvesDivide(k, Sum(m) * o);
      OddFactorCancels(k - 1, Sum(m), o);
      SumValuation(m, k - 1);
      HalvesDivide(k, m);
    }
  }

  lemma OddStride(x: int)
    ensures ((MULTIPLIER - 1) * x + INCREMENT) % 2 == 1
  {
    var v := (MULTIPLIER - 1) * x + INCREMENT;
    var t := 551757622 * x + 6172;
    assert v - 1 == 2 * t;
    Multiple(2, t);
    CongruentIsDivides(2, v, 1);
  }

  // ---------- the period ----------

  /** For every k, the low k bits return to their start after n steps exactly
      when 2^k divides n. */
  lemma UnboundedPeriod(x: int, n: nat, k: nat)
    ensures Unbounded(x, n) % Pow2(k) == x % Pow2(k) <==> n % Pow2(k) == 0
  {
    var o := (MULTIPLIER - 1) * x + INCREMENT;
    OddStride(x);
    Displacement(x, n);
    CongruentIsDivides(Pow2(k), Unbounded(x, n), x);
    OddFactorCancels(k, Sum(n), o);
    SumValuation(n, k);
    DividesIsMod(Pow2(k), n);
  }

  /** The same on the 32-bit state, for every k up to the width of the state. */
  lemma FullPeriod(seed: nat, n: nat, k: nat)
    requires seed < WORD && k <= 32
    ensures Nth(seed, n) % Pow2(k) == seed % Pow2(k) <==> n % Pow2(k) == 0
  {
    WordIsPow2();
    UnboundedPeriod(seed, n, k);
    NthIsUnbounded(seed, n);
    var u := Unbounded(seed, n);
    assert u - u % WORD == WORD * (u / WORD);
    Multiple(WORD, u / WORD);
    Pow2Splits(k, 32);
    DividesTransitive(Pow2(k), WORD, u - u % WORD);
    CongruentIsDivides(Pow2(k), u, u % WORD);
  }

  lemma {:induction false} NthAdds(seed: nat, m: nat, n: nat)
    ensures Nth(seed, m + n) == Nth(Nth(seed, m), n)
  {
    if n > 0 {
      NthAdds(seed, m, n - 1);
    }
  }

  lemma NthInRange(seed: nat, n: nat)
    requires seed < WORD
    ensures Nth(seed, n) < WORD
  {
  }

  /** No state repeats within 2^32 calls. */
  lemma NoEarlyRepeat(seed: nat, i: nat, j: nat)
    requires seed < WORD && i < j < i + WORD
    ensures Nth(seed, i) != Nth(seed, j)
  {
    NthInRange(seed, i);
    NthInRange(seed, j);
    NthAdds(seed, i, j - i);
    FullPeriod(Nth(seed, i), j - i, 32);
    WordIsPow2();
  }

  /** The results of random() themselves cycle early in their low bits: bit b of
      the result repeats after 2^(17+b) calls. */
  lemma LowBitsCycle(seed: nat, n: nat, b: nat)
    requires seed < WORD && b < 16 && n % Pow2(17 + b) == 0
    ensures (Nth(seed, n) / 0x1_0000) % Pow2(b + 1) == (seed / 0x1_0000) % Pow2(b + 1)
  {
    FullPeriod(seed, n, 17 + b);
    WordIsPow2();
    Pow2Adds(16, b + 1);
    UpperHalvesAgree(Nth(seed, n), seed, Pow2(b + 1));
  }

  lemma UpperHalvesAgree(x: nat, y: nat, p: nat)
    requires p > 0 && x % (0x1_0000 * p) == y % (0x1_0000 * p)
    ensures (x / 0x1_0000) % p == (y / 0x1_0000) % p
  {
    CongruentIsDivides(0x1_0000 * p, x, y);
    var q := Quotient(0x1_0000 * p, x - y);
    var d := p * q;
    Multiple(p, q);
    assert x - y == 0x1_0000 * d;
    assert x / 0x1_0000 - y / 0x1_0000 == d;
    CongruentIsDivides(p, x / 0x1_0000, y / 0x1_0000);
  }

  // ---------- the distribution over a full period ----------

  /** The states seen in calls 1..n. */
  ghost function States(seed: nat, n: nat): set<nat> {
    if n == 0 then {} else States(seed, n - 1) + {Nth(seed, n)}
  }

  lemma {:induction false} StateSeen(seed: nat, n: nat, x: nat) returns (i: nat)
    requires x in States(seed, n)
    ensures 1 <= i <= n && Nth(seed, i) == x
  {
    if x == Nth(seed, n) {
      i := n;
    } else {
      i := StateSeen(seed, n - 1, x);
    }
  }

  lemma {:induction false} StatesDistinct(seed: nat, n: nat)
    requires seed < WORD && n <= WORD
    ensures |States(seed, n)| == n
    ensures States(seed, n) <= Below(WORD)
  {
    if n > 0 {
      StatesDistinct(seed, n - 1);
      NthInRange(seed, n);
      var x := Nth(seed, n);
      if x in States(seed, n - 1) {
        var i := StateSeen(seed, n - 1, x);
        NoEarlyRepeat(seed, i, n);
      }
    }
  }

  predicate AtLeast(lo: nat, x: nat) {
    lo <= x
  }

  ghost function Interval(lo: nat, hi: nat): set<nat> {
    set x: nat | 0 <= x < hi && AtLeast(lo, x)
  }

  ghost function Below(n: nat): set<nat> {
    Interval(0, n)
  }

  lemma {:induction false} IntervalSize(lo: nat, hi: nat)
    requires lo <= hi
    ensures |Interval(lo, hi)| == hi - lo
    decreases hi - lo
  {
    if lo < hi {
      IntervalSize(lo, hi - 1);
      assert Interval(lo, hi) == Interval(lo, hi - 1) + {hi - 1};
    } else {
      assert Interval(lo, hi) == {};
    }
  }

  lemma SubsetOfEqualSize<T>(a: set<T>, b: set<T>)
    requires a <= b && |a| == |b|
    ensures a == b
  {
    assert |b - a| == |b| - |a|;
  }

  /** Every 32-bit state is visited exactly once in any 2^32 consecutive calls. */
  lemma EveryStateOnce(seed: nat, x: nat)
    requires seed < WORD && x < WORD
    ensures exists i: nat :: 1 <= i <= WORD && Nth(seed, i) == x
    ensures forall i: nat, j: nat ::
              1 <= i <= WORD && 1 <= j <= WORD && Nth(seed, i) == x && Nth(seed, j) == x ==> i == j
  {
    StatesDistinct(seed, WORD);
    IntervalSize(0, WORD);
    SubsetOfEqualSize(States(seed, WORD), Below(WORD));
    var k := StateSeen(seed, WORD, x);
    forall i: nat, j: nat | 1 <= i < j <= WORD
      ensures Nth(seed, i) != Nth(seed, j)
    {
      NoEarlyRepeat(seed, i, j);
    }
  }

  /** How many of the first n calls return v. */
  function Count(seed: nat, v: nat, n: nat): nat {
    if n == 0 then 0
    else Count(seed, v, n - 1) + if Output(Nth(seed, n)) == v then 1 else 0
  }

  ghost function Returning(s: set<nat>, v: nat): set<nat> {
    set x | x in s && Output(x) == v
  }

  lemma ReturningOneMore(s: set<nat>, x: nat, v: nat)
    requires x !in s
    ensures |Returning(s + {x}, v)| == |Returning(s, v)| + if Output(x) == v then 1 else 0
  {
    var before := Returning(s, v);
    assert Returning(s + {x}, v) == if Output(x) == v then before + {x} else before;
  }

  lemma {:induction false} CountIsStates(seed: nat, v: nat, n: nat)
    requires seed < WORD && n <= WORD
    ensures Count(seed, v, n) == |Returning(States(seed, n), v)|
  {
    if n == 0 {
      assert Returning(States(seed, 0), v) == {};
    } else {
      CountIsStates(seed, v, n - 1);
      var x := Nth(seed, n);
      StatesDistinct(seed, n - 1);
      StatesDistinct(seed, n);
      assert x !in States(seed, n - 1);
      ReturningOneMore(States(seed, n - 1), x, v);
    }
  }

  /** Over any 2^32 consecutive calls each of 0..65535 is returned exactly 65536
      times, and nothing else is returned. */
  lemma Equidistributed(seed: nat, v: nat)
    requires seed < WORD
    ensures Count(seed, v, WORD) == if v < 0x1_0000 then 0x1_0000 else 0
  {
    CountIsStates(seed, v, WORD);
    StatesDistinct(seed, WORD);
    IntervalSize(0, WORD);
    SubsetOfEqualSize(States(seed, WORD), Below(WORD));
    if v < 0x1_0000 {
      assert Returning(Below(WORD), v) == Interval(v * 0x1_0000, (v + 1) * 0x1_0000);
      IntervalSize(v * 0x1_0000, (v + 1) * 0x1_0000);
    } else {
      assert Returning(Below(WORD), v) == {};
    }
  }
}
