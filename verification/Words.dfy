/** The 32-bit words of FIPS 180-4 section 2.2 and the operations on them. */
module WordArithmetic {
  import opened Powers

  type Word = x: nat | x < WORD
  type Byte = x: nat | x < 256

  datatype Op = And | Or | Xor

  function Combine(op: Op, a: nat, b: nat): (r: nat)
    ensures r < 2
  {
    match op
    case And => if a % 2 == 1 && b % 2 == 1 then 1 else 0
    case Or => if a % 2 == 1 || b % 2 == 1 then 1 else 0
    case Xor => if a % 2 != b % 2 then 1 else 0
  }

  /** op applied to each of the n low bits. */
  function Bitwise(op: Op, x: nat, y: nat, n: nat): (r: nat)
    ensures r < Pow2(n)
  {
    if n == 0 then 0 else 2 * Bitwise(op, x / 2, y / 2, n - 1) + Combine(op, x, y)
  }

  function BitOf(x: nat, i: nat): nat {
    if i == 0 then x % 2 else BitOf(x / 2, i - 1)
  }

  /** Bit i of the result is op of the operands' bits i. */
  lemma {:induction false} BitwiseIsBitwise(op: Op, x: nat, y: nat, n: nat, i: nat)
    requires i < n
    ensures BitOf(Bitwise(op, x, y, n), i) == Combine(op, BitOf(x, i), BitOf(y, i))
  {
    if i > 0 {
      BitwiseIsBitwise(op, x / 2, y / 2, n - 1, i - 1);
    }
  }

  function BitAnd(x: Word, y: Word): Word { WordIsPow2(); Bitwise(And, x, y, 32) }
  function BitOr(x: Word, y: Word): Word { WordIsPow2(); Bitwise(Or, x, y, 32) }
  function BitXor(x: Word, y: Word): Word { WordIsPow2(); Bitwise(Xor, x, y, 32) }
  function BitNot(x: Word): Word { WORD - 1 - x }
  function Shl(x: Word, n: nat): Word { (x * Pow2(n)) % WORD }
  function Shr(x: Word, n: nat): Word { if n == 0 then x else Shr(x / 2, n - 1) }
  function Rotr(x: Word, n: nat): Word requires n <= 32 { BitOr(Shr(x, n), Shl(x, 32 - n)) }
  function Plus(x: Word, y: Word): Word { (x + y) % WORD }
  function Minus(x: Word, y: Word): Word { (x - y) % WORD }

  lemma PlusMinus(x: Word, y: Word)
    ensures Minus(Plus(x, y), y) == x && Plus(Minus(x, y), y) == x
  {
    assert Plus(x, y) == if x + y < WORD then x + y else x + y - WORD;
    assert Minus(x, y) == if x >= y then x - y else x - y + WORD;
  }

  /** Adding loses a multiple of 2^32 at most. */
  lemma PlusIsSum(x: Word, y: Word)
    ensures Plus(x, y) == x + y || Plus(x, y) == x + y - WORD
  {
  }

  // ---------- bit by bit ----------

  lemma {:induction false} BitIsBinary(x: nat, k: nat)
    ensures BitOf(x, k) == 0 || BitOf(x, k) == 1
  {
    if k > 0 { BitIsBinary(x / 2, k - 1); }
  }

  lemma {:induction false} ZeroBits(i: nat)
    ensures BitOf(0, i) == 0
  {
    if i > 0 { ZeroBits(i - 1); }
  }

  lemma {:induction false} ComplementBits(x: nat, n: nat, i: nat)
    requires x < Pow2(n) && i < n
    ensures BitOf(Pow2(n) - 1 - x, i) == 1 - BitOf(x, i)
    decreases n
  {
    if i > 0 {
      assert (Pow2(n) - 1 - x) / 2 == Pow2(n - 1) - 1 - x / 2;
      ComplementBits(x / 2, n - 1, i - 1);
    }
  }

  /** The bits determine the word. */
  lemma {:induction false} SameBitsSameWord(x: nat, y: nat, n: nat)
    requires x < Pow2(n) && y < Pow2(n)
    requires forall k: nat | k < n :: BitOf(x, k) == BitOf(y, k)
    ensures x == y
    decreases n
  {
    if n > 0 {
      assert BitOf(x, 0) == BitOf(y, 0);
      forall k: nat | k < n - 1 ensures BitOf(x / 2, k) == BitOf(y / 2, k) {
        assert BitOf(x, k + 1) == BitOf(y, k + 1);
      }
      SameBitsSameWord(x / 2, y / 2, n - 1);
    }
  }

  /** The three operations as truth tables. */
  lemma GateBits(x: Word, y: Word, i: nat)
    requires i < 32
    ensures var a, b := BitOf(x, i), BitOf(y, i);
      && BitOf(BitAnd(x, y), i) == (if a == 1 then b else 0)
      && BitOf(BitOr(x, y), i) == (if a == 1 then 1 else b)
      && BitOf(BitXor(x, y), i) == (if a == 1 then 1 - b else b)
  {
    BitIsBinary(x, i);
    BitIsBinary(y, i);
    BitwiseIsBitwise(And, x, y, 32, i);
    BitwiseIsBitwise(Or, x, y, 32, i);
    BitwiseIsBitwise(Xor, x, y, 32, i);
  }

  lemma NotBit(x: Word, i: nat)
    requires i < 32
    ensures BitOf(BitNot(x), i) == 1 - BitOf(x, i)
  {
    WordIsPow2();
    ComplementBits(x, 32, i);
  }

  lemma {:induction false} ShrBit(x: Word, n: nat, i: nat)
    ensures BitOf(Shr(x, n), i) == BitOf(x, i + n)
    decreases n
  {
    if n > 0 { ShrBit(x / 2, n - 1, i); }
  }

  lemma {:induction false} HighBits(x: nat, k: nat, i: nat)
    requires x < Pow2(k) && k <= i
    ensures BitOf(x, i) == 0
  {
    if k == 0 { ZeroBits(i); } else { HighBits(x / 2, k - 1, i - 1); }
  }

  lemma HalfOfMod(y: nat, p: nat)
    requires p > 0
    ensures (y % (2 * p)) / 2 == (y / 2) % p && (y % (2 * p)) % 2 == y % 2
  {
    var h := y / 2;
    var q, r := h / p, h % p;
    assert y == (2 * p) * q + (2 * r + y % 2) by { assert h == p * q + r; }
    DivisionIsUnique(y, 2 * p, q, 2 * r + y % 2);
  }

  lemma {:induction false} ModBit(y: nat, k: nat, i: nat)
    requires i < k
    ensures BitOf(y % Pow2(k), i) == BitOf(y, i)
    decreases k
  {
    HalfOfMod(y, Pow2(k - 1));
    if i > 0 { ModBit(y / 2, k - 1, i - 1); }
  }

  lemma {:induction false} ScaledBit(x: nat, n: nat, i: nat)
    ensures BitOf(x * Pow2(n), i) == if i < n then 0 else BitOf(x, i - n)
    decreases n
  {
    if n > 0 {
      assert x * Pow2(n) == 2 * (x * Pow2(n - 1));
      if i > 0 { ScaledBit(x, n - 1, i - 1); }
    }
  }

  lemma ShlBit(x: Word, n: nat, i: nat)
    requires i < 32
    ensures BitOf(Shl(x, n), i) == if i < n then 0 else BitOf(x, i - n)
  {
    WordIsPow2();
    ModBit(x * Pow2(n), 32, i);
    ScaledBit(x, n, i);
  }

  /** A rotation moves every bit n places down, round the end. */
  lemma RotrBit(x: Word, n: nat, i: nat)
    requires 0 < n < 32 && i < 32
    ensures BitOf(Rotr(x, n), i) == BitOf(x, (i + n) % 32)
  {
    WordIsPow2();
    GateBits(Shr(x, n), Shl(x, 32 - n), i);
    ShrBit(x, n, i);
    ShlBit(x, 32 - n, i);
    BitIsBinary(x, i + n);
    RoundTheEnd(i, n);
    if i + n >= 32 { HighBits(x, 32, i + n); }
  }

  lemma RoundTheEnd(i: nat, n: nat)
    requires i < 32 && n < 32
    ensures (i + n) % 32 == if i + n < 32 then i + n else i + n - 32
  {
  }
}
