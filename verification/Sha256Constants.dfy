/** Where the constants of SHA-256 come from (sections 4.2.2 and 5.3.3 of FIPS 180-4). */
module Sha256Constants {
  import opened Powers
  import opened WordArithmetic
  import opened Sha256Standard

  /** The first 64 primes. */
  function Primes(): (p: seq<nat>)
    ensures |p| == 64
  {
    Primes0() + Primes16() + Primes32() + Primes48()
  }

  function Primes0(): (p: seq<nat>)
    ensures |p| == 16
  {
    [2, 3, 5, 7, 11, 13, 17, 19, 23, 29, 31, 37, 41, 43, 47, 53]
  }

  function Primes16(): (p: seq<nat>)
    ensures |p| == 16
  {
    [59, 61, 67, 71, 73, 79, 83, 89, 97, 101, 103, 107, 109, 113, 127, 131]
  }

  function Primes32(): (p: seq<nat>)
    ensures |p| == 16
  {
    [137, 139, 149, 151, 157, 163, 167, 173, 179, 181, 191, 193, 197, 199, 211, 223]
  }

  function Primes48(): (p: seq<nat>)
    ensures |p| == 16
  {
    [227, 229, 233, 239, 241, 251, 257, 263, 269, 271, 277, 281, 283, 293, 307, 311]
  }

  /** k is the first 32 bits of the fractional part of the cube root of p: with the integer
      part, the largest number of 2^-32ths whose cube is no more than p. */
  predicate IsCubeRoot(k: Word, p: nat) {
    var c := CubeRootFloor(p) * WORD + k;
    c * c * c <= p * 0x1_0000_0000_0000_0000_0000_0000 < (c + 1) * (c + 1) * (c + 1)
  }

  /** The same for the square root. */
  predicate IsSquareRoot(k: Word, p: nat) {
    var c := SquareRootFloor(p) * WORD + k;
    c * c <= p * 0x1_0000_0000_0000_0000 < (c + 1) * (c + 1)
  }

  function CubeRootFloor(p: nat): nat {
    if p < 8 then 1 else if p < 27 then 2 else if p < 64 then 3 else if p < 125 then 4 else if p < 216 then 5 else 6
  }

  function SquareRootFloor(p: nat): nat {
    if p < 4 then 1 else if p < 9 then 2 else if p < 16 then 3 else 4
  }

  lemma FloorsAreFloors(p: nat)
    ensures 0 < p < 343 ==> var r := CubeRootFloor(p); r * r * r <= p < (r + 1) * (r + 1) * (r + 1)
    ensures 0 < p < 25 ==> var r := SquareRootFloor(p); r * r <= p < (r + 1) * (r + 1)
  {
  }

  lemma Roots0(i: nat)
    requires i < 16
    ensures IsCubeRoot(Constants0()[i], Primes0()[i])
  {
    match i
    case 0 => assert IsCubeRoot(0x428a2f98, 2);
    case 1 => assert IsCubeRoot(0x71374491, 3);
    case 2 => assert IsCubeRoot(0xb5c0fbcf, 5);
    case 3 => assert IsCubeRoot(0xe9b5dba5, 7);
    case 4 => assert IsCubeRoot(0x3956c25b, 11);
    case 5 => assert IsCubeRoot(0x59f111f1, 13);
    case 6 => assert IsCubeRoot(0x923f82a4, 17);
    case 7 => assert IsCubeRoot(0xab1c5ed5, 19);
    case 8 => assert IsCubeRoot(0xd807aa98, 23);
    case 9 => assert IsCubeRoot(0x12835b01, 29);
    case 10 => assert IsCubeRoot(0x243185be, 31);
    case 11 => assert IsCubeRoot(0x550c7dc3, 37);
    case 12 => assert IsCubeRoot(0x72be5d74, 41);
    case 13 => assert IsCubeRoot(0x80deb1fe, 43);
    case 14 => assert IsCubeRoot(0x9bdc06a7, 47);
    case _ => assert IsCubeRoot(0xc19bf174, 53);
  }

  lemma Roots16(i: nat)
    requires i < 16
    ensures IsCubeRoot(Constants16()[i], Primes16()[i])
  {
    match i
    case 0 => assert IsCubeRoot(0xe49b69c1, 59);
    case 1 => assert IsCubeRoot(0xefbe4786, 61);
    case 2 => assert IsCubeRoot(0x0fc19dc6, 67);
    case 3 => assert IsCubeRoot(0x240ca1cc, 71);
    case 4 => assert IsCubeRoot(0x2de92c6f, 73);
    case 5 => assert IsCubeRoot(0x4a7484aa, 79);
    case 6 => assert IsCubeRoot(0x5cb0a9dc, 83);
    case 7 => assert IsCubeRoot(0x76f988da, 89);
    case 8 => assert IsCubeRoot(0x983e5152, 97);
    case 9 => assert IsCubeRoot(0xa831c66d, 101);
    case 10 => assert IsCubeRoot(0xb00327c8, 103);
    case 11 => assert IsCubeRoot(0xbf597fc7, 107);
    case 12 => assert IsCubeRoot(0xc6e00bf3, 109);
    case 13 => assert IsCubeRoot(0xd5a79147, 113);
    case 14 => assert IsCubeRoot(0x06ca6351, 127);
    case _ => assert IsCubeRoot(0x14292967, 131);
  }

  lemma Roots32(i: nat)
    requires i < 16
    ensures IsCubeRoot(Constants32()[i], Primes32()[i])
  {
    match i
    case 0 => assert IsCubeRoot(0x27b70a85, 137);
    case 1 => assert IsCubeRoot(0x2e1b2138, 139);
    case 2 => assert IsCubeRoot(0x4d2c6dfc, 149);
    case 3 => assert IsCubeRoot(0x53380d13, 151);
    case 4 => assert IsCubeRoot(0x650a7354, 157);
    case 5 => assert IsCubeRoot(0x766a0abb, 163);
    case 6 => assert IsCubeRoot(0x81c2c92e, 167);
    case 7 => assert IsCubeRoot(0x92722c85, 173);
    case 8 => assert IsCubeRoot(0xa2bfe8a1, 179);
    case 9 => assert IsCubeRoot(0xa81a664b, 181);
    case 10 => assert IsCubeRoot(0xc24b8b70, 191);
    case 11 => assert IsCubeRoot(0xc76c51a3, 193);
    case 12 => assert IsCubeRoot(0xd192e819, 197);
    case 13 => assert IsCubeRoot(0xd6990624, 199);
    case 14 => assert IsCubeRoot(0xf40e3585, 211);
    case _ => assert IsCubeRoot(0x106aa070, 223);
  }

  lemma Roots48(i: nat)
    requires i < 16
    ensures IsCubeRoot(Constants48()[i], Primes48()[i])
  {
    match i
    case 0 => assert IsCubeRoot(0x19a4c116, 227);
    case 1 => assert IsCubeRoot(0x1e376c08, 229);
    case 2 => assert IsCubeRoot(0x2748774c, 233);
    case 3 => assert IsCubeRoot(0x34b0bcb5, 239);
    case 4 => assert IsCubeRoot(0x391c0cb3, 241);
    case 5 => assert IsCubeRoot(0x4ed8aa4a, 251);
    case 6 => assert IsCubeRoot(0x5b9cca4f, 257);
    case 7 => assert IsCubeRoot(0x682e6ff3, 263);
    case 8 => assert IsCubeRoot(0x748f82ee, 269);
    case 9 => assert IsCubeRoot(0x78a5636f, 271);
    case 10 => assert IsCubeRoot(0x84c87814, 277);
    case 11 => assert IsCubeRoot(0x8cc70208, 281);
    case 12 => assert IsCubeRoot(0x90befffa, 283);
    case 13 => assert IsCubeRoot(0xa4506ceb, 293);
    case 14 => assert IsCubeRoot(0xbef9a3f7, 307);
    case _ => assert IsCubeRoot(0xc67178f2, 311);
  }

  /** Every round constant is the cube root of its prime. */
  lemma ConstantsAreCubeRoots(t: nat)
    requires t < 64
    ensures IsCubeRoot(Constants()[t], Primes()[t])
  {
    if t < 16 {
      Roots0(t);
    } else if t < 32 {
      Roots16(t - 16);
    } else if t < 48 {
      Roots32(t - 32);
    } else {
      Roots48(t - 48);
    }
  }

  /** And every word of the initial hash the square root of one of the first eight. */
  lemma InitialIsSquareRoots(t: nat)
    requires t < 8
    ensures IsSquareRoot(Words(INITIAL)[t], Primes()[t])
  {
    match t
    case 0 => assert IsSquareRoot(0x6a09e667, 2);
    case 1 => assert IsSquareRoot(0xbb67ae85, 3);
    case 2 => assert IsSquareRoot(0x3c6ef372, 5);
    case 3 => assert IsSquareRoot(0xa54ff53a, 7);
    case 4 => assert IsSquareRoot(0x510e527f, 11);
    case 5 => assert IsSquareRoot(0x9b05688c, 13);
    case 6 => assert IsSquareRoot(0x1f83d9ab, 17);
    case _ => assert IsSquareRoot(0x5be0cd19, 19);
  }
}
