/** SHA-256 as FIPS 180-4 defines it: padding (section 5.1.1), message schedule
    and compression (section 6.2.2), all as functions of the whole message. */
module Sha256Standard {
  import opened Powers
  import opened WordArithmetic

  datatype State = State(a: Word, b: Word, c: Word, d: Word, e: Word, f: Word, g: Word, h: Word)

  const INITIAL := State(0x6a09e667, 0xbb67ae85, 0x3c6ef372, 0xa54ff53a,
                         0x510e527f, 0x9b05688c, 0x1f83d9ab, 0x5be0cd19)

  /** The round constants of section 4.2.2. */
  function Constants(): (k: seq<Word>)
    ensures |k| == 64
  {
    Constants0() + Constants16() + Constants32() + Constants48()
  }

  function Constants0(): (k: seq<Word>)
    ensures |k| == 16
  {
    [0x428a2f98, 0x71374491, 0xb5c0fbcf, 0xe9b5dba5, 0x3956c25b, 0x59f111f1, 0x923f82a4, 0xab1c5ed5,
     0xd807aa98, 0x12835b01, 0x243185be, 0x550c7dc3, 0x72be5d74, 0x80deb1fe, 0x9bdc06a7, 0xc19bf174]
  }

  function Constants16(): (k: seq<Word>)
    ensures |k| == 16
  {
    [0xe49b69c1, 0xefbe4786, 0x0fc19dc6, 0x240ca1cc, 0x2de92c6f, 0x4a7484aa, 0x5cb0a9dc, 0x76f988da,
     0x983e5152, 0xa831c66d, 0xb00327c8, 0xbf597fc7, 0xc6e00bf3, 0xd5a79147, 0x06ca6351, 0x14292967]
  }

  function Constants32(): (k: seq<Word>)
    ensures |k| == 16
  {
    [0x27b70a85, 0x2e1b2138, 0x4d2c6dfc, 0x53380d13, 0x650a7354, 0x766a0abb, 0x81c2c92e, 0x92722c85,
     0xa2bfe8a1, 0xa81a664b, 0xc24b8b70, 0xc76c51a3, 0xd192e819, 0xd6990624, 0xf40e3585, 0x106aa070]
  }

  function Constants48(): (k: seq<Word>)
    ensures |k| == 16
  {
    [0x19a4c116, 0x1e376c08, 0x2748774c, 0x34b0bcb5, 0x391c0cb3, 0x4ed8aa4a, 0x5b9cca4f, 0x682e6ff3,
     0x748f82ee, 0x78a5636f, 0x84c87814, 0x8cc70208, 0x90befffa, 0xa4506ceb, 0xbef9a3f7, 0xc67178f2]
  }

  /** The six functions of section 4.1.2 and the addition, as a record: the loops
      and their inverses are the same whatever these functions are. */
  datatype Functions = Functions(
    add: (Word, Word) -> Word,
    ch: (Word, Word, Word) -> Word, maj: (Word, Word, Word) -> Word,
    ep0: Word -> Word, ep1: Word -> Word, sig0: Word -> Word, sig1: Word -> Word)

  function Ch(x: Word, y: Word, z: Word): Word { BitXor(BitAnd(x, y), BitAnd(BitNot(x), z)) }
  function Maj(x: Word, y: Word, z: Word): Word { BitXor(BitXor(BitAnd(x, y), BitAnd(x, z)), BitAnd(y, z)) }
  function BigSigma0(x: Word): Word { BitXor(BitXor(Rotr(x, 2), Rotr(x, 13)), Rotr(x, 22)) }
  function BigSigma1(x: Word): Word { BitXor(BitXor(Rotr(x, 6), Rotr(x, 11)), Rotr(x, 25)) }
  function SmallSigma0(x: Word): Word { BitXor(BitXor(Rotr(x, 7), Rotr(x, 18)), Shr(x, 3)) }
  function SmallSigma1(x: Word): Word { BitXor(BitXor(Rotr(x, 17), Rotr(x, 19)), Shr(x, 10)) }

  function Standard(): Functions {
    Functions(Plus, Ch, Maj, BigSigma0, BigSigma1, SmallSigma0, SmallSigma1)
  }

  // ---------- the six functions bit by bit ----------

  /** Each bit of x chooses between y and z. */
  lemma ChBit(x: Word, y: Word, z: Word, i: nat)
    requires i < 32
    ensures BitOf(Ch(x, y, z), i) == if BitOf(x, i) == 1 then BitOf(y, i) else BitOf(z, i)
  {
    GateBits(x, y, i);
    GateBits(BitNot(x), z, i);
    NotBit(x, i);
    GateBits(BitAnd(x, y), BitAnd(BitNot(x), z), i);
    BitIsBinary(x, i);
    BitIsBinary(y, i);
    BitIsBinary(z, i);
  }

  /** The majority of three bits. */
  lemma MajBit(x: Word, y: Word, z: Word, i: nat)
    requires i < 32
    ensures BitOf(Maj(x, y, z), i) == (BitOf(x, i) + BitOf(y, i) + BitOf(z, i)) / 2
  {
    GateBits(x, y, i);
    GateBits(x, z, i);
    GateBits(y, z, i);
    GateBits(BitAnd(x, y), BitAnd(x, z), i);
    GateBits(BitXor(BitAnd(x, y), BitAnd(x, z)), BitAnd(y, z), i);
    BitIsBinary(x, i);
    BitIsBinary(y, i);
    BitIsBinary(z, i);
  }

  lemma ParityBit(x: Word, y: Word, z: Word, i: nat)
    requires i < 32
    ensures BitOf(BitXor(BitXor(x, y), z), i) == (BitOf(x, i) + BitOf(y, i) + BitOf(z, i)) % 2
  {
    GateBits(x, y, i);
    GateBits(BitXor(x, y), z, i);
    BitIsBinary(x, i);
    BitIsBinary(y, i);
    BitIsBinary(z, i);
  }

  /** Bit n places further on, round the end. */
  function Around(x: Word, i: nat, n: nat): nat {
    BitOf(x, (i + n) % 32)
  }

  lemma RotatedBits(x: Word, i: nat, l: nat, m: nat, n: nat)
    requires i < 32 && 0 < l < 32 && 0 < m < 32 && 0 < n < 32
    ensures BitOf(BitXor(BitXor(Rotr(x, l), Rotr(x, m)), Rotr(x, n)), i)
      == (Around(x, i, l) + Around(x, i, m) + Around(x, i, n)) % 2
  {
    RotrBit(x, l, i);
    RotrBit(x, m, i);
    RotrBit(x, n, i);
    ParityBit(Rotr(x, l), Rotr(x, m), Rotr(x, n), i);
  }

  lemma ShiftedBits(x: Word, i: nat, l: nat, m: nat, n: nat)
    requires i < 32 && 0 < l < 32 && 0 < m < 32
    ensures BitOf(BitXor(BitXor(Rotr(x, l), Rotr(x, m)), Shr(x, n)), i)
      == (Around(x, i, l) + Around(x, i, m) + BitOf(x, i + n)) % 2
  {
    RotrBit(x, l, i);
    RotrBit(x, m, i);
    ShrBit(x, n, i);
    ParityBit(Rotr(x, l), Rotr(x, m), Shr(x, n), i);
  }

  /** The four sigmas: parities of the bits at three distances. */
  lemma BigSigma0Bit(x: Word, i: nat)
    requires i < 32
    ensures BitOf(BigSigma0(x), i) == (Around(x, i, 2) + Around(x, i, 13) + Around(x, i, 22)) % 2
  {
    RotatedBits(x, i, 2, 13, 22);
  }

  lemma BigSigma1Bit(x: Word, i: nat)
    requires i < 32
    ensures BitOf(BigSigma1(x), i) == (Around(x, i, 6) + Around(x, i, 11) + Around(x, i, 25)) % 2
  {
    RotatedBits(x, i, 6, 11, 25);
  }

  lemma SmallSigma0Bit(x: Word, i: nat)
    requires i < 32
    ensures BitOf(SmallSigma0(x), i) == (Around(x, i, 7) + Around(x, i, 18) + BitOf(x, i + 3)) % 2
  {
    ShiftedBits(x, i, 7, 18, 3);
  }

  lemma SmallSigma1Bit(x: Word, i: nat)
    requires i < 32
    ensures BitOf(SmallSigma1(x), i) == (Around(x, i, 17) + Around(x, i, 19) + BitOf(x, i + 10)) % 2
  {
    ShiftedBits(x, i, 17, 19, 10);
  }

  // ---------- padding ----------

  /** n as k big-endian bytes. */
  function BigEndian(n: nat, k: nat): (s: seq<Byte>)
    ensures |s| == k
  {
    if k == 0 then [] else BigEndian(n / 256, k - 1) + [n % 256]
  }

  function ReadBigEndian(s: seq<Byte>): nat {
    if s == [] then 0 else ReadBigEndian(s[..|s| - 1]) * 256 + s[|s| - 1]
  }

  /** The least k >= 0 with len + 1 + k congruent to 56 modulo 64. */
  function ZeroCount(len: nat): nat {
    (55 - len) % 64
  }

  function Padded(m: seq<Byte>): seq<Byte> {
    m + [0x80] + seq(ZeroCount(|m|), i => 0) + BigEndian(8 * |m|, 8)
  }

  /** Reads a padded message back: the length field says where the message ends. */
  function Unpadded(p: seq<Byte>): seq<Byte> {
    if |p| < 8 then []
    else
      var n := ReadBigEndian(p[|p| - 8..]) / 8;
      if n <= |p| then p[..n] else []
  }

  // ---------- one block ----------

  function WordAt(block: seq<Byte>, t: nat): Word
    requires |block| == 64 && t < 16
  {
    Assemble(block[4 * t], block[4 * t + 1], block[4 * t + 2], block[4 * t + 3])
  }

  /** Four bytes, most significant first, as one word. */
  function Assemble(b0: Byte, b1: Byte, b2: Byte, b3: Byte): Word {
    BitOr(BitOr(BitOr(Shl(b0, 24), Shl(b1, 16)), Shl(b2, 8)), b3)
  }

  /** Shifted bytes do not overlap. */
  lemma {:induction false} OrIsSum(x: nat, y: nat, k: nat, n: nat)
    requires k <= n && y < Pow2(k)
    ensures Bitwise(Or, x * Pow2(k), y, n) == (x * Pow2(k)) % Pow2(n) + y
    decreases n
  {
    if n > 0 {
      if k == 0 {
        assert x * Pow2(0) == x;
        HalfOfMod(x, Pow2(n - 1));
        OrIsSum(x / 2, 0, 0, n - 1);
        assert x / 2 * Pow2(0) == x / 2;
      } else {
        ScaledHalf(x, Pow2(k - 1));
        HalfOfMod(x * Pow2(k), Pow2(n - 1));
        OrIsSum(x, y / 2, k - 1, n - 1);
      }
    }
  }

  lemma ScaledHalf(x: nat, p: nat)
    ensures x * (2 * p) == 2 * (x * p)
  {
  }

  lemma OrBelow(h: Word, x: nat, y: Word, k: nat)
    requires k <= 32 && h == x * Pow2(k) && y < Pow2(k)
    ensures BitOr(h, y) == h + y
  {
    WordIsPow2();
    OrIsSum(x, y, k, 32);
  }

  /** The first byte is the most significant one. */
  lemma AssembleIs(b0: Byte, b1: Byte, b2: Byte, b3: Byte)
    ensures Assemble(b0, b1, b2, b3) == b0 * 0x100_0000 + b1 * 0x1_0000 + b2 * 0x100 + b3
  {
    ByteShifts(b0, b1, b2);
    var high: nat := b0 * 0x100 + b1;
    OrBelow(b0 * 0x100_0000, b0, b1 * 0x1_0000, 24);
    OrBelow(high * 0x1_0000, high, b2 * 0x100, 16);
    OrBelow((high * 0x100 + b2) * 0x100, high * 0x100 + b2, b3, 8);
  }

  lemma ByteShifts(b0: Byte, b1: Byte, b2: Byte)
    ensures Shl(b0, 24) == b0 * 0x100_0000 && Shl(b1, 16) == b1 * 0x1_0000 && Shl(b2, 8) == b2 * 0x100
    ensures Pow2(24) == 0x100_0000 && Pow2(16) == 0x1_0000 && Pow2(8) == 0x100
  {
    Pow2Byte(0);
    Pow2Byte(8);
    Pow2Byte(16);
  }

  /** W_t of section 6.2.2, step 1. */
  function Schedule(f: Functions, block: seq<Byte>, t: nat): Word
    requires |block| == 64
  {
    if t < 16 then WordAt(block, t)
    else
      f.add(f.add(f.add(f.sig1(Schedule(f, block, t - 2)), Schedule(f, block, t - 7)),
                  f.sig0(Schedule(f, block, t - 15))),
            Schedule(f, block, t - 16))
  }

  function ScheduleOf(f: Functions, block: seq<Byte>): (ws: seq<Word>)
    requires |block| == 64
    ensures |ws| == 64
  {
    seq(64, t requires 0 <= t => Schedule(f, block, t))
  }

  function Round(f: Functions, s: State, k: Word, w: Word): State {
    var t1 := f.add(f.add(f.add(f.add(s.h, f.ep1(s.e)), f.ch(s.e, s.f, s.g)), k), w);
    var t2 := f.add(f.ep0(s.a), f.maj(s.a, s.b, s.c));
    State(f.add(t1, t2), s.a, s.b, s.c, f.add(s.d, t1), s.e, s.f, s.g)
  }

  /** The working variables after t rounds under the constants ks and the schedule
      ws (section 6.2.2, step 3). */
  function Rounds(f: Functions, s: State, ks: seq<Word>, ws: seq<Word>, t: nat): State
    requires t <= |ks| && t <= |ws|
  {
    if t == 0 then s else Round(f, Rounds(f, s, ks, ws, t - 1), ks[t - 1], ws[t - 1])
  }

  function Add(f: Functions, x: State, y: State): State {
    State(f.add(x.a, y.a), f.add(x.b, y.b), f.add(x.c, y.c), f.add(x.d, y.d),
          f.add(x.e, y.e), f.add(x.f, y.f), f.add(x.g, y.g), f.add(x.h, y.h))
  }

  function Compress(f: Functions, s: State, ks: seq<Word>, block: seq<Byte>): State
    requires |block| == 64 && |ks| == 64
  {
    Add(f, s, Rounds(f, s, ks, ScheduleOf(f, block), 64))
  }

  // ---------- the same in numbers ----------

  lemma PlusMod(x: nat, y: Word)
    ensures Plus(x % WORD, y) == (x + y) % WORD == Plus(y, x % WORD)
  {
  }

  lemma PlusMods(x: nat, y: nat)
    ensures Plus(x % WORD, y % WORD) == (x + y) % WORD
  {
  }

  lemma RoundSums(h: Word, s1: Word, ch: Word, k: Word, w: Word, d: Word, s0: Word, maj: Word)
    ensures var t1, t2 := Plus(Plus(Plus(Plus(h, s1), ch), k), w), Plus(s0, maj);
      && Plus(t1, t2) == (h + s1 + ch + k + w + s0 + maj) % WORD
      && Plus(d, t1) == (d + (h + s1 + ch + k + w)) % WORD
  {
    PlusMod(h + s1, ch);
    PlusMod(h + s1 + ch, k);
    PlusMod(h + s1 + ch + k, w);
    PlusMods(h + s1 + ch + k + w, s0 + maj);
    PlusMod(h + s1 + ch + k + w, d);
  }

  /** The standard's functions in their places. */
  lemma StandardFunctions(x: Word, y: Word, z: Word)
    ensures Standard().add == Plus
    ensures Standard().ch(x, y, z) == Ch(x, y, z) && Standard().maj(x, y, z) == Maj(x, y, z)
    ensures Standard().ep0(x) == BigSigma0(x) && Standard().ep1(x) == BigSigma1(x)
    ensures Standard().sig0(x) == SmallSigma0(x) && Standard().sig1(x) == SmallSigma1(x)
  {
  }

  /** Section 6.2.2, step 3: six words move on by one place, and the two others are sums
      modulo 2^32. */
  lemma RoundInNumbers(f: Functions, s: State, k: Word, w: Word)
    requires f.add == Plus
    ensures var r := Round(f, s, k, w);
      var t1, t2 := s.h + f.ep1(s.e) + f.ch(s.e, s.f, s.g) + k + w, f.ep0(s.a) + f.maj(s.a, s.b, s.c);
      && r.b == s.a && r.c == s.b && r.d == s.c && r.f == s.e && r.g == s.f && r.h == s.g
      && r.a == (t1 + t2) % WORD && r.e == (s.d + t1) % WORD
  {
    RoundSums(s.h, f.ep1(s.e), f.ch(s.e, s.f, s.g), k, w, s.d, f.ep0(s.a), f.maj(s.a, s.b, s.c));
  }

  lemma {:induction false} ReadFour(s: seq<Byte>)
    requires |s| == 4
    ensures Assemble(s[0], s[1], s[2], s[3]) == ReadBigEndian(s)
  {
    AssembleIs(s[0], s[1], s[2], s[3]);
    assert s[..3][..2] == s[..2] && s[..2][..1] == s[..1] && s[..1][..0] == [];
    assert ReadBigEndian(s[..1]) == s[0];
    assert ReadBigEndian(s[..2]) == ReadBigEndian(s[..1]) * 256 + s[1];
    assert ReadBigEndian(s[..3]) == ReadBigEndian(s[..2]) * 256 + s[2];
  }

  /** Section 6.2.2, step 1: the first 16 words are the numbers in the block's bytes, four by
      four. */
  lemma FirstWords(f: Functions, block: seq<Byte>, t: nat)
    requires |block| == 64 && t < 16
    ensures Schedule(f, block, t) == ReadBigEndian(block[4 * t..4 * t + 4])
  {
    ReadFour(block[4 * t..4 * t + 4]);
  }

  lemma ScheduleSums(s1: Word, x7: Word, s0: Word, x16: Word)
    ensures Plus(Plus(Plus(s1, x7), s0), x16) == (s1 + x7 + s0 + x16) % WORD
  {
    PlusMod(s1 + x7, s0);
    PlusMod(s1 + x7 + s0, x16);
  }

  /** Each later one is a sum modulo 2^32. */
  lemma LaterWords(f: Functions, block: seq<Byte>, t: nat, w2: Word, w7: Word, w15: Word, w16: Word)
    requires |block| == 64 && t >= 16 && f.add == Plus
    requires Schedule(f, block, t - 2) == w2 && Schedule(f, block, t - 7) == w7
    requires Schedule(f, block, t - 15) == w15 && Schedule(f, block, t - 16) == w16
    ensures Schedule(f, block, t) == (f.sig1(w2) + w7 + f.sig0(w15) + w16) % WORD
  {
    ScheduleSums(f.sig1(w2), w7, f.sig0(w15), w16);
  }

  /** Section 6.2.2, step 4: the words of two states add up modulo 2^32, one by one. */
  lemma AddInNumbers(f: Functions, x: State, y: State)
    requires f.add == Plus
    ensures Add(f, x, y) == State(
      (x.a + y.a) % WORD, (x.b + y.b) % WORD, (x.c + y.c) % WORD, (x.d + y.d) % WORD,
      (x.e + y.e) % WORD, (x.f + y.f) % WORD, (x.g + y.g) % WORD, (x.h + y.h) % WORD)
  {
  }

  // ---------- the whole message ----------

  /** The hash value after the first n blocks of p. */
  function HashBlocks(f: Functions, ks: seq<Word>, p: seq<Byte>, n: nat): State
    requires 64 * n <= |p| && |ks| == 64
  {
    if n == 0 then INITIAL
    else Compress(f, HashBlocks(f, ks, p, n - 1), ks, p[64 * (n - 1)..64 * n])
  }

  function WordBytes(x: Word): (s: seq<Byte>)
    ensures |s| == 4
  {
    [(x / 0x100_0000) % 256, (x / 0x1_0000) % 256, (x / 0x100) % 256, x % 256]
  }

  function Words(s: State): seq<Word> {
    [s.a, s.b, s.c, s.d, s.e, s.f, s.g, s.h]
  }

  /** The words written out one after the other, most significant byte first. */
  function Bytes(ws: seq<Word>): (r: seq<Byte>)
    ensures |r| == 4 * |ws|
  {
    if ws == [] then [] else Bytes(ws[..|ws| - 1]) + WordBytes(ws[|ws| - 1])
  }

  function Hash(m: seq<Byte>): State {
    PaddedSize(m);
    HashBlocks(Standard(), Constants(), Padded(m), |Padded(m)| / 64)
  }

  function Digest(m: seq<Byte>): (r: seq<Byte>)
    ensures |r| == 32
  {
    Bytes(Words(Hash(m)))
  }

  // ---------- properties of the padding ----------

  /** The padded length is the least multiple of 64 that leaves room for the
      marker byte and the length field. */
  lemma PaddedSize(m: seq<Byte>)
    ensures |Padded(m)| % 64 == 0
    ensures |m| + 9 <= |Padded(m)| < |m| + 9 + 64
    ensures |Padded(m)| == (|m| + 72) / 64 * 64
  {
    PaddingArithmetic(|m|, ZeroCount(|m|), (55 - |m|) / 64);
  }

  lemma PaddingArithmetic(n: nat, k: nat, q: int)
    requires 55 - n == 64 * q + k && k < 64
    ensures (n + 9 + k) % 64 == 0 && n + 9 + k == (n + 72) / 64 * 64
  {
    assert n + 9 + k == 64 * (1 - q);
    assert (n + 72) / 64 == 1 - q;
  }

  lemma DivDiv(n: nat, p: nat)
    requires p > 0
    ensures n / (256 * p) == (n / 256) / p
  {
    var a, b := n / 256, n % 256;
    var q, r := a / p, a % p;
    assert n == 256 * (p * q + r) + b;
    assert n == (256 * p) * q + (256 * r + b);
    assert 0 <= 256 * r + b < 256 * p;
    DivisionIsUnique(n, 256 * p, q, 256 * r + b);
  }

  /** Byte i of the big-endian form is a shifted and masked copy of n. */
  lemma {:induction false} BigEndianByte(n: nat, k: nat, i: nat)
    requires i < k
    ensures BigEndian(n, k)[i] == n / Pow2(8 * (k - 1 - i)) % 256
  {
    if i < k - 1 {
      BigEndianByte(n / 256, k - 1, i);
      var p := Pow2(8 * (k - 2 - i));
      Pow2Byte(8 * (k - 2 - i));
      DivDiv(n, p);
    }
  }

  lemma Pow2Byte(e: nat)
    ensures Pow2(e + 8) == 256 * Pow2(e)
  {
    assert Pow2(e + 4) == 16 * Pow2(e) by {
      assert Pow2(e + 2) == 4 * Pow2(e);
    }
    assert Pow2(e + 6) == 4 * Pow2(e + 4);
  }

  lemma {:induction false} BigEndianReads(n: nat, k: nat)
    requires n < Pow2(8 * k)
    ensures ReadBigEndian(BigEndian(n, k)) == n
  {
    if k > 0 {
      Pow2Byte(8 * (k - 1));
      BigEndianReads(n / 256, k - 1);
      var s := BigEndian(n, k);
      assert s[..|s| - 1] == BigEndian(n / 256, k - 1);
    }
  }

  /** Padding loses nothing: the message is recovered from its padded form. */
  lemma PaddingRoundTrip(m: seq<Byte>)
    requires |m| < 0x2000_0000_0000_0000
    ensures Unpadded(Padded(m)) == m
  {
    var p := Padded(m);
    assert p[|p| - 8..] == BigEndian(8 * |m|, 8);
    assert Pow2(64) == 0x1_0000_0000_0000_0000 by {
      WordPowers();
    }
    BigEndianReads(8 * |m|, 8);
    assert p[..|m|] == m;
  }

  /** Section 5.1.1: the message, a one bit, zeros and the message's length in bits. */
  lemma PaddingShape(m: seq<Byte>)
    requires |m| < 0x2000_0000_0000_0000
    ensures var p := Padded(m); var n := |p| - 8;
      && |m| < n && p[..|m|] == m && p[|m|] == 0x80 && (forall i | |m| < i < n :: p[i] == 0)
      && ReadBigEndian(p[n..]) == 8 * |m|
  {
    var p := Padded(m);
    PaddedSize(m);
    assert p[|p| - 8..] == BigEndian(8 * |m|, 8);
    WordPowers();
    BigEndianReads(8 * |m|, 8);
  }

  lemma WordPowers()
    ensures Pow2(64) == 0x1_0000_0000_0000_0000
  {
    Pow2Byte(0);
    Pow2Byte(8);
    Pow2Byte(16);
    Pow2Byte(24);
    Pow2Byte(32);
    Pow2Byte(40);
    Pow2Byte(48);
    Pow2Byte(56);
  }

  /** The block sequence determines the message. */
  lemma BlocksDetermineMessage(m: seq<Byte>, n: seq<Byte>)
    requires |m| < 0x2000_0000_0000_0000 && |n| < 0x2000_0000_0000_0000
    ensures Padded(m) == Padded(n) <==> m == n
  {
    PaddingRoundTrip(m);
    PaddingRoundTrip(n);
  }

  // ---------- the rounds are a permutation ----------

  type Subtraction = (Word, Word) -> Word

  ghost predicate Cancels(f: Functions, sub: Subtraction) {
    forall x, y :: sub(f.add(x, y), y) == x && f.add(sub(x, y), y) == x
  }

  function UndoRound(f: Functions, sub: Subtraction, s: State, k: Word, w: Word): State {
    var t2 := f.add(f.ep0(s.b), f.maj(s.b, s.c, s.d));
    var t1 := sub(s.a, t2);
    State(s.b, s.c, s.d, sub(s.e, t1), s.f, s.g, s.h,
          sub(sub(sub(sub(t1, w), k), f.ch(s.f, s.g, s.h)), f.ep1(s.f)))
  }

  lemma UndoAfterRound(f: Functions, sub: Subtraction, s: State, k: Word, w: Word)
    requires Cancels(f, sub)
    ensures UndoRound(f, sub, Round(f, s, k, w), k, w) == s
    ensures Round(f, UndoRound(f, sub, s, k, w), k, w) == s
  {
  }

  function UndoRounds(f: Functions, sub: Subtraction, s: State, ks: seq<Word>, ws: seq<Word>, t: nat): State
    requires t <= |ks| && t <= |ws|
    decreases t
  {
    if t == 0 then s
    else UndoRounds(f, sub, UndoRound(f, sub, s, ks[t - 1], ws[t - 1]), ks, ws, t - 1)
  }

  /** Whatever the six functions are, the round loop is a bijection on states, with
      the undo rounds, run backwards, as its inverse on both sides. */
  lemma {:induction false} UndoesRounds(f: Functions, sub: Subtraction, s: State, ks: seq<Word>, ws: seq<Word>, t: nat)
    requires Cancels(f, sub) && t <= |ks| && t <= |ws|
    ensures UndoRounds(f, sub, Rounds(f, s, ks, ws, t), ks, ws, t) == s
    ensures Rounds(f, UndoRounds(f, sub, s, ks, ws, t), ks, ws, t) == s
    decreases t
  {
    if t > 0 {
      UndoAfterRound(f, sub, Rounds(f, s, ks, ws, t - 1), ks[t - 1], ws[t - 1]);
      UndoesRounds(f, sub, s, ks, ws, t - 1);
      UndoAfterRound(f, sub, s, ks[t - 1], ws[t - 1]);
      UndoesRounds(f, sub, UndoRound(f, sub, s, ks[t - 1], ws[t - 1]), ks, ws, t - 1);
    }
  }

  /** The 64 rounds of SHA-256 are a permutation of the state for every schedule. */
  lemma RoundsArePermutation(s: State, ws: seq<Word>)
    requires |ws| == 64
    ensures UndoRounds(Standard(), Minus, Rounds(Standard(), s, Constants(), ws, 64), Constants(), ws, 64) == s
    ensures Rounds(Standard(), UndoRounds(Standard(), Minus, s, Constants(), ws, 64), Constants(), ws, 64) == s
  {
    forall x: Word, y: Word
      ensures Minus(Plus(x, y), y) == x && Plus(Minus(x, y), y) == x
    {
      PlusMinus(x, y);
    }
    assert Cancels(Standard(), Minus);
    UndoesRounds(Standard(), Minus, s, Constants(), ws, 64);
  }

  // ---------- the output determines the state ----------

  function WordOf(s: seq<Byte>): Word
    requires |s| == 4
  {
    var b0: nat, b1: nat, b2: nat, b3: nat := s[0], s[1], s[2], s[3];
    b0 * 0x100_0000 + b1 * 0x1_0000 + b2 * 0x100 + b3
  }

  lemma WordRoundTrip(x: Word)
    ensures WordOf(WordBytes(x)) == x
  {
    var q := x / 0x100;
    var r := q / 0x100;
    assert x / 0x1_0000 == r && x / 0x100_0000 == r / 0x100;
    assert x == 0x100 * q + x % 0x100 && q == 0x100 * r + q % 0x100;
  }

  function ReadWords(s: seq<Byte>): seq<Word> {
    if |s| < 4 then [] else ReadWords(s[..|s| - 4]) + [WordOf(s[|s| - 4..])]
  }

  lemma {:induction false} BytesRoundTrip(ws: seq<Word>)
    ensures ReadWords(Bytes(ws)) == ws
  {
    if ws != [] {
      var n := |ws| - 1;
      BytesRoundTrip(ws[..n]);
      WordRoundTrip(ws[n]);
      SplitsAppended(Bytes(ws[..n]), WordBytes(ws[n]));
      LastWord(ws);
    }
  }

  lemma LastWord(ws: seq<Word>)
    requires ws != []
    ensures ws[..|ws| - 1] + [ws[|ws| - 1]] == ws
  {
  }

  lemma SplitsAppended(s: seq<Byte>, t: seq<Byte>)
    ensures (s + t)[..|s + t| - |t|] == s && (s + t)[|s + t| - |t|..] == t
  {
  }
}

/** The miner's own implementation: pads on the fly, expands the schedule in place
    and rotates eight working variables. */
module Sha256Miner {
  import opened Digits
  import opened Powers
  import opened WordArithmetic
  import opened Sha256Standard

  /** (((len + 9) + 63) / 64) * 64 in 32-bit size_t arithmetic. */
  function PaddedLength(len: nat): nat {
    ((len + 9) % WORD + 63) % WORD / 64 * 64
  }

  /** The size computation is right exactly for lengths that leave room for the
      padding below 2^32. */
  lemma PaddedLengthExact(m: seq<Byte>)
    requires |m| < WORD
    ensures PaddedLength(|m|) == |Padded(m)| <==> |m| <= WORD - 73
    ensures PaddedLength(|m|) % 64 == 0
  {
    PaddedSize(m);
    Wraps(m);
  }

  lemma Wraps(data: seq<Byte>)
    requires |data| < WORD
    ensures |data| <= WORD - 73 ==> PaddedLength(|data|) == (|data| + 72) / 64 * 64
    ensures |data| > WORD - 73 ==> PaddedLength(|data|) == if |data| >= WORD - 8 then 64 else 0
  {
    var len := |data|;
    if len <= WORD - 73 {
      assert (len + 9) % WORD == len + 9;
    } else {
      assert ((len + 9) % WORD + 63) % WORD == len + 72 - WORD;
    }
  }

  /** The byte the fill loop stores for position pos of the padded message. */
  function PaddedByte(data: seq<Byte>, paddedLen: nat, pos: nat): Byte {
    if pos < |data| then data[pos]
    else if pos == |data| then 0x80
    else if paddedLen - 8 <= pos < paddedLen then ((|data| * 8) / Pow2(56 - (pos - (paddedLen - 8)) * 8)) % 256
    else 0
  }

  /** The bytes made on the fly are the padded message of the standard. */
  lemma OnTheFly(data: seq<Byte>, pos: nat)
    requires pos < |Padded(data)|
    ensures PaddedByte(data, |Padded(data)|, pos) == Padded(data)[pos]
  {
    PaddedSize(data);
    var n := |Padded(data)|;
    if pos >= n - 8 {
      BigEndianByte(8 * |data|, 8, pos - (n - 8));
    }
  }

  ghost predicate IsPadded(data: seq<Byte>, p: seq<Byte>) {
    forall i | 0 <= i < |p| :: p[i] == PaddedByte(data, |p|, i)
  }

  method FillBlock(data: seq<Byte>, paddedLen: nat, blockIndex: nat, block: array<Byte>)
    requires block.Length == 64 && 64 * (blockIndex + 1) <= paddedLen
    modifies block
    ensures forall j | 0 <= j < 64 :: block[j] == PaddedByte(data, paddedLen, 64 * blockIndex + j)
  {
    var len := |data|;
    var i := 0;
    while i < 64
      invariant 0 <= i <= 64
      invariant forall j | 0 <= j < i :: block[j] == PaddedByte(data, paddedLen, 64 * blockIndex + j)
    {
      var pos := blockIndex * 64 + i;
      if pos < len {
        block[i] := data[pos];
      } else if pos == len {
        block[i] := 0x80;
      } else if pos >= paddedLen - 8 {
        var bitPos := pos - (paddedLen - 8);
        var bitLen := len * 8;
        block[i] := (bitLen / Pow2(56 - bitPos * 8)) % 256;
      } else {
        block[i] := 0;
      }
      i := i + 1;
    }
  }

  method Expand(fn: Functions, block: array<Byte>, w: array<Word>)
    requires block.Length == 64 && w.Length == 64
    modifies w
    ensures w[..] == ScheduleOf(fn, block[..])
  {
    var i := 0;
    while i < 16
      invariant 0 <= i <= 16
      invariant forall j :: 0 <= j < i ==> w[j] == Schedule(fn, block[..], j)
    {
      w[i] := BitOr(BitOr(BitOr(Shl(block[i * 4], 24), Shl(block[i * 4 + 1], 16)),
                          Shl(block[i * 4 + 2], 8)), block[i * 4 + 3]);
      i := i + 1;
    }
    while i < 64
      invariant 16 <= i <= 64
      invariant forall j :: 0 <= j < i ==> w[j] == Schedule(fn, block[..], j)
    {
      w[i] := fn.add(fn.add(fn.add(fn.sig1(w[i - 2]), w[i - 7]), fn.sig0(w[i - 15])), w[i - 16]);
      i := i + 1;
    }
  }

  /** One pass of the outer loop; p is the padded message. */
  method ProcessBlock(data: seq<Byte>, ghost p: seq<Byte>, paddedLen: nat, blockIndex: nat,
                      fn: Functions, k: seq<Word>, block: array<Byte>, w: array<Word>, h: array<Word>)
    requires IsPadded(data, p) && paddedLen == |p| && 64 * (blockIndex + 1) <= |p|
    requires block.Length == 64 && w.Length == 64 && h.Length == 8 && |k| == 64 && h != w
    requires StateAt(h[..]) == HashBlocks(fn, k, p, blockIndex)
    modifies block, w, h
    ensures StateAt(h[..]) == HashBlocks(fn, k, p, blockIndex + 1)
  {
    FillBlock(data, paddedLen, blockIndex, block);
    assert block[..] == p[64 * blockIndex..64 * (blockIndex + 1)];
    Expand(fn, block, w);
    CompressInPlace(fn, h, k, w);
  }

  function StateAt(h: seq<Word>): State
    requires |h| == 8
  {
    State(h[0], h[1], h[2], h[3], h[4], h[5], h[6], h[7])
  }

  /** The eight working variables through the 64 rounds. */
  method RunRounds(fn: Functions, s: State, k: seq<Word>, w: array<Word>) returns (r: State)
    requires w.Length == 64 && |k| == 64
    ensures r == Rounds(fn, s, k, w[..], 64)
  {
    var a, b, c, d, e, f, g, hh := s.a, s.b, s.c, s.d, s.e, s.f, s.g, s.h;
    var i := 0;
    while i < 64
      invariant 0 <= i <= 64
      invariant State(a, b, c, d, e, f, g, hh) == Rounds(fn, s, k, w[..], i)
    {
      var t1 := fn.add(fn.add(fn.add(fn.add(hh, fn.ep1(e)), fn.ch(e, f, g)), k[i]), w[i]);
      var t2 := fn.add(fn.ep0(a), fn.maj(a, b, c));
      hh := g;
      g := f;
      f := e;
      e := fn.add(d, t1);
      d := c;
      c := b;
      b := a;
      a := fn.add(t1, t2);
      i := i + 1;
    }
    r := State(a, b, c, d, e, f, g, hh);
  }

  method CompressInPlace(fn: Functions, h: array<Word>, k: seq<Word>, w: array<Word>)
    requires |k| == 64 && h.Length == 8 && w.Length == 64 && h != w
    modifies h
    ensures StateAt(h[..]) == Add(fn, StateAt(old(h[..])), Rounds(fn, StateAt(old(h[..])), k, w[..], 64))
  {
    var r := RunRounds(fn, StateAt(h[..]), k, w);
    h[0], h[1], h[2], h[3] := fn.add(h[0], r.a), fn.add(h[1], r.b), fn.add(h[2], r.c), fn.add(h[3], r.d);
    h[4], h[5], h[6], h[7] := fn.add(h[4], r.e), fn.add(h[5], r.f), fn.add(h[6], r.g), fn.add(h[7], r.h);
  }

  method Write(h: array<Word>, out: array<Byte>)
    requires h.Length == 8 && out.Length >= 32
    modifies out
    ensures out[..32] == Bytes(h[..])
    ensures out[32..] == old(out[32..])
  {
    var i := 0;
    while i < 8
      invariant 0 <= i <= 8
      invariant out[..4 * i] == Bytes(h[..i])
      invariant out[32..] == old(out[32..])
    {
      out[i * 4] := h[i] / 0x100_0000 % 256;
      out[i * 4 + 1] := h[i] / 0x1_0000 % 256;
      out[i * 4 + 2] := h[i] / 0x100 % 256;
      out[i * 4 + 3] := h[i] % 256;
      assert h[..i + 1][..i] == h[..i];
      assert out[..4 * i + 4] == out[..4 * i] + WordBytes(h[i]);
      i := i + 1;
    }
    assert h[..8] == h[..];
  }

  method InitialHash() returns (h: array<Word>)
    ensures fresh(h) && h.Length == 8 && StateAt(h[..]) == INITIAL
  {
    h := new Word[8];
    h[0], h[1], h[2], h[3] := 0x6a09e667, 0xbb67ae85, 0x3c6ef372, 0xa54ff53a;
    h[4], h[5], h[6], h[7] := 0x510e527f, 0x9b05688c, 0x1f83d9ab, 0x5be0cd19;
  }

  /** The bytes the blocks are filled with, for every length a size_t can hold. */
  function Generated(data: seq<Byte>): (p: seq<Byte>)
    ensures |p| == PaddedLength(|data|)
  {
    seq(PaddedLength(|data|), i requires 0 <= i => PaddedByte(data, PaddedLength(|data|), i))
  }

  lemma GeneratedIsPadded(data: seq<Byte>)
    ensures IsPadded(data, Generated(data))
  {
  }

  /** They are the padded message exactly for lengths up to 2^32 - 73.  Beyond that they
      are the first block of the message at best. */
  lemma GeneratedExact(data: seq<Byte>)
    requires |data| < WORD
    ensures Generated(data) == Padded(data) <==> |data| <= WORD - 73
    ensures |data| > WORD - 73 ==> Generated(data) == if |data| >= WORD - 8 then data[..64] else []
  {
    PaddedLengthExact(data);
    Wraps(data);
    var p := Generated(data);
    if |data| <= WORD - 73 {
      PaddedSize(data);
      forall i | 0 <= i < |p| ensures p[i] == Padded(data)[i] {
        OnTheFly(data, i);
      }
    }
  }

  /** What is computed for any length. */
  function MinerDigest(data: seq<Byte>): seq<Byte> {
    Bytes(Words(HashBlocks(Standard(), Constants(), Generated(data), |Generated(data)| / 64)))
  }

  /** The digest of the standard for lengths up to 2^32 - 73; beyond, a value that depends
      on the first 64 bytes at most, so that any two such messages collide if they are both
      short of 2^32 - 8 bytes, or both not and begin alike. */
  lemma MinerDigestExact(m: seq<Byte>, n: seq<Byte>)
    requires |m| < WORD && |n| < WORD
    ensures |m| <= WORD - 73 ==> MinerDigest(m) == Digest(m)
    ensures WORD - 73 < |m| < WORD - 8 && WORD - 73 < |n| < WORD - 8 ==> MinerDigest(m) == MinerDigest(n)
    ensures WORD - 8 <= |m| && WORD - 8 <= |n| && m[..64] == n[..64] ==> MinerDigest(m) == MinerDigest(n)
  {
    GeneratedExact(m);
    GeneratedExact(n);
  }

  /** The whole function. */
  method Sha256(data: seq<Byte>, out: array<Byte>)
    requires |data| < WORD && out.Length >= 32
    modifies out
    ensures out[..32] == MinerDigest(data)
    ensures |data| <= WORD - 73 ==> out[..32] == Digest(data)
    ensures out[32..] == old(out[32..])
  {
    var h := HashMessage(data);
    Write(h, out);
    WordsOfState(h[..]);
    MinerDigestExact(data, data);
  }

  method HashMessage(data: seq<Byte>) returns (h: array<Word>)
    requires |data| < WORD
    ensures fresh(h) && h.Length == 8
    ensures StateAt(h[..]) == HashBlocks(Standard(), Constants(), Generated(data), |Generated(data)| / 64)
  {
    h := InitialHash();
    var w := new Word[64];
    var block := new Byte[64];
    var paddedLen := PaddedLength(|data|);
    var blockCount := paddedLen / 64;
    ghost var p := Generated(data);
    StartOfHash(data);
    HashData(data, p, blockCount, Standard(), Constants(), block, w, h);
  }

  lemma WordsOfState(h: seq<Word>)
    requires |h| == 8
    ensures Words(StateAt(h)) == h
  {
  }

  lemma StartOfHash(data: seq<Byte>)
    requires |data| < WORD
    ensures IsPadded(data, Generated(data)) && 64 * (PaddedLength(|data|) / 64) == |Generated(data)|
    ensures HashBlocks(Standard(), Constants(), Generated(data), 0) == INITIAL
  {
    GeneratedIsPadded(data);
    PaddedLengthExact(data);
  }

  method HashData(data: seq<Byte>, ghost p: seq<Byte>, blockCount: nat,
                  fn: Functions, k: seq<Word>, block: array<Byte>, w: array<Word>, h: array<Word>)
    requires IsPadded(data, p) && 64 * blockCount == |p|
    requires block.Length == 64 && w.Length == 64 && h.Length == 8 && |k| == 64 && h != w
    requires StateAt(h[..]) == HashBlocks(fn, k, p, 0)
    modifies block, w, h
    ensures StateAt(h[..]) == HashBlocks(fn, k, p, blockCount)
  {
    var blockIndex := 0;
    while blockIndex < blockCount
      invariant 0 <= blockIndex <= blockCount
      invariant StateAt(h[..]) == HashBlocks(fn, k, p, blockIndex)
    {
      ProcessBlock(data, p, 64 * blockCount, blockIndex, fn, k, block, w, h);
      blockIndex := blockIndex + 1;
    }
  }

  const HEX: string := "0123456789abcdef"

  function HexDigit(d: nat): char
    requires d < 16
  {
    if d < 10 then '0' + d as char else 'a' + (d - 10) as char
  }

  lemma TableDigit(d: nat)
    requires d < 16
    ensures HEX[d] == HexDigit(d)
  {
  }

  function HexPair(b: Byte): (p: string)
    ensures |p| == 2
  {
    [HexDigit(b / 16), HexDigit(b % 16)]
  }

  /** Two lower-case hexadecimal digits for every byte. */
  function Hex(s: seq<Byte>): (r: string)
    ensures |r| == 2 * |s|
  {
    if s == [] then ""
    else Hex(s[..|s| - 1]) + HexPair(s[|s| - 1])
  }

  method Sha256Hex(data: seq<Byte>, out: array<char>)
    requires |data| < WORD && out.Length >= 65
    modifies out
    ensures out[..64] == Hex(MinerDigest(data)) && out[64] == '\0'
    ensures |data| <= WORD - 73 ==> out[..64] == Hex(Digest(data))
    ensures out[65..] == old(out[65..])
  {
    var hash := new Byte[32];
    Sha256(data, hash);
    assert hash[..32] == hash[..];
    WriteHex(hash, out);
    out[64] := '\0';
  }

  method WriteHex(hash: array<Byte>, out: array<char>)
    requires hash.Length == 32 && out.Length >= 65
    modifies out
    ensures out[..64] == Hex(hash[..])
    ensures out[65..] == old(out[65..])
  {
    ghost var s := hash[..];
    var i := 0;
    while i < 32
      invariant 0 <= i <= 32
      invariant out[..2 * i] == Hex(s[..i])
      invariant out[65..] == old(out[65..])
    {
      ghost var done := out[..2 * i];
      WritePair(hash[i], out, i);
      HexAppends(s, i);
      assert out[..2 * i + 2] == done + HexPair(s[i]);
      i := i + 1;
    }
    assert s[..32] == s;
  }

  method WritePair(b: Byte, out: array<char>, i: nat)
    requires 2 * i + 1 < out.Length
    modifies out
    ensures out[..2 * i] == old(out[..2 * i]) && out[2 * i..2 * i + 2] == HexPair(b)
    ensures out[2 * i + 2..] == old(out[2 * i + 2..])
  {
    TableDigit(b / 16);
    TableDigit(b % 16);
    out[i * 2] := HEX[b / 16 % 16];
    out[i * 2 + 1] := HEX[b % 16];
  }

  lemma HexAppends(s: seq<Byte>, i: nat)
    requires i < |s|
    ensures Hex(s[..i + 1]) == Hex(s[..i]) + HexPair(s[i])
  {
    assert s[..i + 1][..i] == s[..i];
  }

  function PairValue(p: string): Byte
    requires |p| == 2
  {
    var high, low := DigitValue(p[0]), DigitValue(p[1]);
    high * 16 + low
  }

  lemma PairRoundTrip(b: Byte)
    ensures PairValue(HexPair(b)) == b
  {
    var high, low := b / 16, b % 16;
    assert DigitValue(HexDigit(high)) == high;
    assert DigitValue(HexDigit(low)) == low;
  }

  function FromHex(s: string): seq<Byte> {
    if |s| < 2 then [] else FromHex(s[..|s| - 2]) + [PairValue(s[|s| - 2..])]
  }

  lemma FromHexAppends(t: string, b: Byte)
    ensures FromHex(t + HexPair(b)) == FromHex(t) + [b]
  {
    var s := t + HexPair(b);
    assert s[..|s| - 2] == t && s[|s| - 2..] == HexPair(b);
    PairRoundTrip(b);
  }

  lemma TakeOneMore(s: seq<Byte>, i: nat)
    requires i < |s|
    ensures s[..i + 1] == s[..i] + [s[i]]
  {
  }

  lemma {:induction false} HexPrefixRoundTrip(s: seq<Byte>, i: nat)
    requires i <= |s|
    ensures FromHex(Hex(s[..i])) == s[..i]
  {
    if i > 0 {
      HexPrefixRoundTrip(s, i - 1);
      HexAppends(s, i - 1);
      FromHexAppends(Hex(s[..i - 1]), s[i - 1]);
      TakeOneMore(s, i - 1);
    }
  }

  lemma HexRoundTrip(s: seq<Byte>)
    ensures FromHex(Hex(s)) == s
  {
    HexPrefixRoundTrip(s, |s|);
    assert s[..|s|] == s;
  }

  /** The printed digest determines all eight state words. */
  lemma PrintedDigestDeterminesState(x: State, y: State)
    ensures Hex(Bytes(Words(x))) == Hex(Bytes(Words(y))) <==> x == y
  {
    HexRoundTrip(Bytes(Words(x)));
    HexRoundTrip(Bytes(Words(y)));
    BytesRoundTrip(Words(x));
    BytesRoundTrip(Words(y));
    assert Words(x)[0] == x.a && Words(x)[1] == x.b && Words(x)[2] == x.c && Words(x)[3] == x.d;
    assert Words(x)[4] == x.e && Words(x)[5] == x.f && Words(x)[6] == x.g && Words(x)[7] == x.h;
  }
}
