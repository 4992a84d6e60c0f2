/** sigset_t: a word and the set of signals whose bits are on in it. */
module SignalSets {
  import opened Powers
  import opened WordArithmetic

  const NSIG := 32

  type Mask = set<nat>

  function SetOf(w: Word): Mask {
    set k: nat | k < NSIG && BitOf(w, k) == 1
  }

  /** 1UL << sig. */
  function Bit(sig: nat): Word
    requires sig < NSIG
  {
    Shl(1, sig)
  }

  lemma {:induction false} BitOfPower(s: nat, i: nat)
    ensures BitOf(Pow2(s), i) == if i == s then 1 else 0
    decreases s
  {
    if s == 0 {
      ZeroBits(i - (if i > 0 then 1 else 0));
    } else if i > 0 {
      BitOfPower(s - 1, i - 1);
    }
  }

  lemma {:induction false} PowerGrows(s: nat, n: nat)
    requires s < n
    ensures Pow2(s) < Pow2(n)
  {
    if n > s + 1 { PowerGrows(s, n - 1); }
  }

  lemma BitIsSingleton(sig: nat)
    requires sig < NSIG
    ensures SetOf(Bit(sig)) == {sig}
  {
    WordIsPow2();
    PowerGrows(sig, 32);
    forall k: nat | k < NSIG ensures BitOf(Bit(sig), k) == 1 <==> k == sig {
      BitOfPower(sig, k);
    }
  }

  lemma OrIsUnion(x: Word, y: Word)
    ensures SetOf(BitOr(x, y)) == SetOf(x) + SetOf(y)
  {
    forall k: nat | k < NSIG ensures k in SetOf(BitOr(x, y)) <==> k in SetOf(x) + SetOf(y) {
      BitwiseIsBitwise(Or, x, y, 32, k);
      BitIsBinary(x, k);
      BitIsBinary(y, k);
    }
  }

  lemma AndIsIntersection(x: Word, y: Word)
    ensures SetOf(BitAnd(x, y)) == SetOf(x) * SetOf(y)
  {
    forall k: nat | k < NSIG ensures k in SetOf(BitAnd(x, y)) <==> k in SetOf(x) * SetOf(y) {
      BitwiseIsBitwise(And, x, y, 32, k);
      BitIsBinary(x, k);
      BitIsBinary(y, k);
    }
  }

  lemma NotIsComplement(y: Word)
    ensures forall k: nat | k < NSIG :: k in SetOf(BitNot(y)) <==> k !in SetOf(y)
  {
    WordIsPow2();
    forall k: nat | k < NSIG ensures k in SetOf(BitNot(y)) <==> k !in SetOf(y) {
      ComplementBits(y, 32, k);
      BitIsBinary(y, k);
    }
  }

  /** a & ~b. */
  lemma AndNotIsDifference(x: Word, y: Word)
    ensures SetOf(BitAnd(x, BitNot(y))) == SetOf(x) - SetOf(y)
  {
    AndIsIntersection(x, BitNot(y));
    NotIsComplement(y);
  }

  /** A word is no more than the set of its bits. */
  lemma SetDeterminesWord(x: Word, y: Word)
    requires SetOf(x) == SetOf(y)
    ensures x == y
  {
    WordIsPow2();
    forall k: nat | k < 32 ensures BitOf(x, k) == BitOf(y, k) {
      assert k in SetOf(x) <==> k in SetOf(y);
      BitIsBinary(x, k);
      BitIsBinary(y, k);
    }
    SameBitsSameWord(x, y, 32);
  }

  lemma NoBits(x: Word)
    ensures SetOf(x) == {} <==> x == 0
  {
    assert SetOf(0) == {} by {
      forall k: nat ensures BitOf(0, k) == 0 { ZeroBits(k); }
    }
    if SetOf(x) == {} { SetDeterminesWord(x, 0); }
  }

  /** The test (set & (1UL << sig)). */
  lemma TestIsMembership(x: Word, sig: nat)
    requires sig < NSIG
    ensures BitAnd(x, Bit(sig)) != 0 <==> sig in SetOf(x)
  {
    AndIsIntersection(x, Bit(sig));
    BitIsSingleton(sig);
    NoBits(0);
    if BitAnd(x, Bit(sig)) != 0 {
      if sig !in SetOf(x) { SetDeterminesWord(BitAnd(x, Bit(sig)), 0); }
    } else {
      assert sig !in SetOf(BitAnd(x, Bit(sig)));
    }
  }
}
