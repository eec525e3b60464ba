/** SHA-256, HMAC and PBKDF2 as their standards define them: FIPS 180-4, RFC 2104
    and RFC 8018.  lib/sha256.c is proved against these functions in ShaContext. */
module Sha {
  import opened Words

  type Bytes = seq<u8>

  type Word = bv32

  type Hash = h: seq<Word> | |h| == 8 witness seq(8, i => 0)

  // ----- The compression function, section 6.2.2 of FIPS 180-4 -----

  const K1: seq<u32> := [
    0x428a2f98, 0x71374491, 0xb5c0fbcf, 0xe9b5dba5, 0x3956c25b, 0x59f111f1, 0x923f82a4, 0xab1c5ed5,
    0xd807aa98, 0x12835b01, 0x243185be, 0x550c7dc3, 0x72be5d74, 0x80deb1fe, 0x9bdc06a7, 0xc19bf174]

  const K2: seq<u32> := [
    0xe49b69c1, 0xefbe4786, 0x0fc19dc6, 0x240ca1cc, 0x2de92c6f, 0x4a7484aa, 0x5cb0a9dc, 0x76f988da,
    0x983e5152, 0xa831c66d, 0xb00327c8, 0xbf597fc7, 0xc6e00bf3, 0xd5a79147, 0x06ca6351, 0x14292967]

  const K3: seq<u32> := [
    0x27b70a85, 0x2e1b2138, 0x4d2c6dfc, 0x53380d13, 0x650a7354, 0x766a0abb, 0x81c2c92e, 0x92722c85,
    0xa2bfe8a1, 0xa81a664b, 0xc24b8b70, 0xc76c51a3, 0xd192e819, 0xd6990624, 0xf40e3585, 0x106aa070]

  const K4: seq<u32> := [
    0x19a4c116, 0x1e376c08, 0x2748774c, 0x34b0bcb5, 0x391c0cb3, 0x4ed8aa4a, 0x5b9cca4f, 0x682e6ff3,
    0x748f82ee, 0x78a5636f, 0x84c87814, 0x8cc70208, 0x90befffa, 0xa4506ceb, 0xbef9a3f7, 0xc67178f2]

  const K: seq<u32> := K1 + K2 + K3 + K4

  const IV: Hash := [0x6a09e667, 0xbb67ae85, 0x3c6ef372, 0xa54ff53a, 0x510e527f, 0x9b05688c, 0x1f83d9ab, 0x5be0cd19]

  function Ror(x: Word, n: nat): Word
    requires 0 < n < 32
  {
    (x >> n) | (x << (32 - n))
  }

  function Sigma0(x: Word): Word {
    Ror(x, 2) ^ Ror(x, 13) ^ Ror(x, 22)
  }

  function Sigma1(x: Word): Word {
    Ror(x, 6) ^ Ror(x, 11) ^ Ror(x, 25)
  }

  function Small0(x: Word): Word {
    Ror(x, 7) ^ Ror(x, 18) ^ (x >> 3)
  }

  function Small1(x: Word): Word {
    Ror(x, 17) ^ Ror(x, 19) ^ (x >> 10)
  }

  function Ch(x: Word, y: Word, z: Word): Word {
    (x & y) ^ (!x & z)
  }

  function Maj(x: Word, y: Word, z: Word): Word {
    (x & y) ^ (x & z) ^ (y & z)
  }

  function BigEndian(p: Bytes, i: nat): Word
    requires i + 4 <= |p|
  {
    ((p[i] as bv32) << 24) | ((p[i + 1] as bv32) << 16) | ((p[i + 2] as bv32) << 8) | (p[i + 3] as bv32)
  }

  function Mix(a: Word, b: Word, c: Word, d: Word): Word {
    Small1(a) + b + Small0(c) + d
  }

  /** The word that follows the first words `w` of the message schedule. */
  function NextWord(p: Bytes, w: seq<Word>): Word
    requires |p| == 64
  {
    var t := |w|;
    if t < 16 then BigEndian(p, 4 * t) else Mix(w[t - 2], w[t - 7], w[t - 15], w[t - 16])
  }

  /** The first `n` words of the message schedule. */
  function Schedule(p: Bytes, n: nat): (w: seq<Word>)
    requires |p| == 64
    ensures |w| == n
    decreases n
  {
    if n == 0 then []
    else
      var w := Schedule(p, n - 1);
      w + [NextWord(p, w)]
  }

  /** One round on the working variables a..h. */
  function Round(v: Hash, k: Word, w: Word): Hash {
    var t1 := v[7] + Sigma1(v[4]) + Ch(v[4], v[5], v[6]) + k + w;
    var t2 := Sigma0(v[0]) + Maj(v[0], v[1], v[2]);
    [t1 + t2, v[0], v[1], v[2], v[3] + t1, v[4], v[5], v[6]]
  }

  /** The constant of round `t`. */
  function Key(t: nat): Word
    requires t < 64
  {
    K[t] as bv32
  }

  // ----- Where the constants come from -----

  /** `w` are the first 32 bits of the fractional part of the cube root of `p`; `n` is its
      integral part. */
  predicate CubeRoot(w: u32, p: int, n: int) {
    var x := n * 0x1_0000_0000 + w;
    x * x * x <= p * 0x1_0000_0000_0000_0000_0000_0000 < (x + 1) * (x + 1) * (x + 1)
  }

  predicate SquareRoot(w: Word, p: int, n: int) {
    var x := n * 0x1_0000_0000 + w as int;
    x * x <= p * 0x1_0000_0000_0000_0000 < (x + 1) * (x + 1)
  }

  /** Section 4.2.2 of FIPS 180-4: the round constants are the cube roots of the first 64
      primes ... */
  lemma RoundConstants1()
    ensures CubeRoot(K[0], 2, 1) && CubeRoot(K[1], 3, 1)
    ensures CubeRoot(K[2], 5, 1) && CubeRoot(K[3], 7, 1)
    ensures CubeRoot(K[4], 11, 2) && CubeRoot(K[5], 13, 2)
    ensures CubeRoot(K[6], 17, 2) && CubeRoot(K[7], 19, 2)
  {
    assert K[0] == K1[0];
    assert K[1] == K1[1];
    assert K[2] == K1[2];
    assert K[3] == K1[3];
    assert K[4] == K1[4];
    assert K[5] == K1[5];
    assert K[6] == K1[6];
    assert K[7] == K1[7];
  }

  lemma RoundConstants2()
    ensures CubeRoot(K[8], 23, 2) && CubeRoot(K[9], 29, 3)
    ensures CubeRoot(K[10], 31, 3) && CubeRoot(K[11], 37, 3)
    ensures CubeRoot(K[12], 41, 3) && CubeRoot(K[13], 43, 3)
    ensures CubeRoot(K[14], 47, 3) && CubeRoot(K[15], 53, 3)
  {
    assert K[8] == K1[8];
    assert K[9] == K1[9];
    assert K[10] == K1[10];
    assert K[11] == K1[11];
    assert K[12] == K1[12];
    assert K[13] == K1[13];
    assert K[14] == K1[14];
    assert K[15] == K1[15];
  }

  lemma RoundConstants3()
    ensures CubeRoot(K[16], 59, 3) && CubeRoot(K[17], 61, 3)
    ensures CubeRoot(K[18], 67, 4) && CubeRoot(K[19], 71, 4)
    ensures CubeRoot(K[20], 73, 4) && CubeRoot(K[21], 79, 4)
    ensures CubeRoot(K[22], 83, 4) && CubeRoot(K[23], 89, 4)
  {
    assert K[16] == K2[0];
    assert K[17] == K2[1];
    assert K[18] == K2[2];
    assert K[19] == K2[3];
    assert K[20] == K2[4];
    assert K[21] == K2[5];
    assert K[22] == K2[6];
    assert K[23] == K2[7];
  }

  lemma RoundConstants4()
    ensures CubeRoot(K[24], 97, 4) && CubeRoot(K[25], 101, 4)
    ensures CubeRoot(K[26], 103, 4) && CubeRoot(K[27], 107, 4)
    ensures CubeRoot(K[28], 109, 4) && CubeRoot(K[29], 113, 4)
    ensures CubeRoot(K[30], 127, 5) && CubeRoot(K[31], 131, 5)
  {
    assert K[24] == K2[8];
    assert K[25] == K2[9];
    assert K[26] == K2[10];
    assert K[27] == K2[11];
    assert K[28] == K2[12];
    assert K[29] == K2[13];
    assert K[30] == K2[14];
    assert K[31] == K2[15];
  }

  lemma RoundConstants5()
    ensures CubeRoot(K[32], 137, 5) && CubeRoot(K[33], 139, 5)
    ensures CubeRoot(K[34], 149, 5) && CubeRoot(K[35], 151, 5)
    ensures CubeRoot(K[36], 157, 5) && CubeRoot(K[37], 163, 5)
    ensures CubeRoot(K[38], 167, 5) && CubeRoot(K[39], 173, 5)
  {
    assert K[32] == K3[0];
    assert K[33] == K3[1];
    assert K[34] == K3[2];
    assert K[35] == K3[3];
    assert K[36] == K3[4];
    assert K[37] == K3[5];
    assert K[38] == K3[6];
    assert K[39] == K3[7];
  }

  lemma RoundConstants6()
    ensures CubeRoot(K[40], 179, 5) && CubeRoot(K[41], 181, 5)
    ensures CubeRoot(K[42], 191, 5) && CubeRoot(K[43], 193, 5)
    ensures CubeRoot(K[44], 197, 5) && CubeRoot(K[45], 199, 5)
    ensures CubeRoot(K[46], 211, 5) && CubeRoot(K[47], 223, 6)
  {
    assert K[40] == K3[8];
    assert K[41] == K3[9];
    assert K[42] == K3[10];
    assert K[43] == K3[11];
    assert K[44] == K3[12];
    assert K[45] == K3[13];
    assert K[46] == K3[14];
    assert K[47] == K3[15];
  }

  lemma RoundConstants7()
    ensures CubeRoot(K[48], 227, 6) && CubeRoot(K[49], 229, 6)
    ensures CubeRoot(K[50], 233, 6) && CubeRoot(K[51], 239, 6)
    ensures CubeRoot(K[52], 241, 6) && CubeRoot(K[53], 251, 6)
    ensures CubeRoot(K[54], 257, 6) && CubeRoot(K[55], 263, 6)
  {
    assert K[48] == K4[0];
    assert K[49] == K4[1];
    assert K[50] == K4[2];
    assert K[51] == K4[3];
    assert K[52] == K4[4];
    assert K[53] == K4[5];
    assert K[54] == K4[6];
    assert K[55] == K4[7];
  }

  lemma RoundConstants8()
    ensures CubeRoot(K[56], 269, 6) && CubeRoot(K[57], 271, 6)
    ensures CubeRoot(K[58], 277, 6) && CubeRoot(K[59], 281, 6)
    ensures CubeRoot(K[60], 283, 6) && CubeRoot(K[61], 293, 6)
    ensures CubeRoot(K[62], 307, 6) && CubeRoot(K[63], 311, 6)
  {
    assert K[56] == K4[8];
    assert K[57] == K4[9];
    assert K[58] == K4[10];
    assert K[59] == K4[11];
    assert K[60] == K4[12];
    assert K[61] == K4[13];
    assert K[62] == K4[14];
    assert K[63] == K4[15];
  }

  /** ... and, by section 5.3.3, the initial hash value the square roots of the first eight. */
  lemma InitialValue()
    ensures SquareRoot(IV[0], 2, 1)
    ensures SquareRoot(IV[1], 3, 1)
    ensures SquareRoot(IV[2], 5, 2)
    ensures SquareRoot(IV[3], 7, 2)
    ensures SquareRoot(IV[4], 11, 3)
    ensures SquareRoot(IV[5], 13, 3)
    ensures SquareRoot(IV[6], 17, 4)
    ensures SquareRoot(IV[7], 19, 4)
  {
  }

  /** Where the top bit goes in the functions of section 4.1.2: by rotations of 2, 13, 22,
      of 6, 11, 25, of 7, 18 and a shift of 3, and of 17, 19 and a shift of 10. */
  lemma TopBit()
    ensures Sigma0(0x8000_0000) == 0x2004_0200 && Sigma1(0x8000_0000) == 0x0210_0040
    ensures Small0(0x8000_0000) == 0x1100_2000 && Small1(0x8000_0000) == 0x0020_5000
    ensures Small0(1) == 0x0200_4000 && Small1(1) == 0x0000_a000
  {
  }

  function Rounds(h: Hash, p: Bytes, n: nat): Hash
    requires |p| == 64 && n <= 64
    decreases n
  {
    if n == 0 then h else Round(Rounds(h, p, n - 1), Key(n - 1), Schedule(p, 64)[n - 1])
  }

  function Plus(a: Hash, b: Hash): Hash {
    [a[0] + b[0], a[1] + b[1], a[2] + b[2], a[3] + b[3], a[4] + b[4], a[5] + b[5], a[6] + b[6], a[7] + b[7]]
  }

  function Compress(h: Hash, p: Bytes): Hash
    requires |p| == 64
  {
    Plus(h, Rounds(h, p, 64))
  }

  // ----- Hashing a message -----

  /** A whole number of blocks. */
  predicate Whole(n: nat) {
    n % 64 == 0
  }

  lemma WholeParts(n: nat)
    requires Whole(n)
    ensures n > 0 ==> n >= 64 && Whole(n - 64)
    ensures Whole(n + 64)
  {
  }

  /** All blocks of `m` in order. */
  function Absorb(h: Hash, m: Bytes): Hash
    requires Whole(|m|)
    decreases |m|
  {
    hide *;
    if m == [] then h
    else
      WholeParts(|m|);
      Absorb(Compress(h, m[..64]), m[64..])
  }

  lemma {:induction false} AbsorbAppend(h: Hash, a: Bytes, b: Bytes)
    requires Whole(|a|) && Whole(|b|)
    ensures Whole(|a + b|) && Absorb(h, a + b) == Absorb(Absorb(h, a), b)
    decreases |a|
  {
    hide Compress;
    if a == [] {
      assert a + b == b;
    } else {
      WholeParts(|a|);
      assert (a + b)[..64] == a[..64] && (a + b)[64..] == a[64..] + b;
      AbsorbAppend(Compress(h, a[..64]), a[64..], b);
    }
  }

  function Zeros(n: nat): (z: Bytes)
    ensures |z| == n
  {
    seq(n, i => 0)
  }

  /** `n` bytes of `v`, most significant first. */
  function BigBytes(v: nat, n: nat): (b: Bytes)
    ensures |b| == n
    decreases n
  {
    if n == 0 then [] else BigBytes(v / 0x100, n - 1) + [v % 0x100]
  }

  /** How many zero bytes follow the bit 1. */
  function ZeroCount(len: nat): (z: nat)
    ensures z < 64
  {
    (55 - len) % 64
  }

  /** Section 5.1.1 of FIPS 180-4: the least number of zero bytes that leaves room for
      the length in the last block. */
  lemma ZeroCountIsLeast(len: nat, z: nat)
    ensures (len + 1 + ZeroCount(len)) % 64 == 56
    ensures (len + 1 + z) % 64 == 56 ==> ZeroCount(len) <= z
  {
  }

  lemma PaddedWhole(len: nat)
    ensures Whole(len + 1 + ZeroCount(len) + 8)
  {
  }

  const TWO64: nat := 0x1_0000_0000_0000_0000

  /** The padded message: bit 1, zeros, 64-bit length. */
  function Pad(m: Bytes): (p: Bytes)
    ensures Whole(|p|)
  {
    hide *;
    PaddedWhole(|m|);
    m + [0x80] + Zeros(ZeroCount(|m|)) + BigBytes(BitLength(|m|), 8)
  }

  /** The message length in bits as the 64-bit counter holds it. */
  function BitLength(len: nat): (n: nat)
    ensures n < TWO64
  {
    8 * len % 0x1_0000_0000_0000_0000
  }

  /** For messages FIPS 180-4 admits, that is the length itself. */
  lemma LengthFits(len: nat)
    ensures BitLength(len) == 8 * len <==> 8 * len < TWO64
  {
  }

  /** Words to bytes, most significant first. */
  function Digest(h: Hash, n: nat): (d: Bytes)
    requires n <= 8
    ensures |d| == 4 * n
    decreases n
  {
    if n == 0 then [] else Digest(h, n - 1) + BigBytes(h[n - 1] as int, 4)
  }

  function Sha256(m: Bytes): (d: Bytes)
    ensures |d| == 32
  {
    Digest(Absorb(IV, Pad(m)), 8)
  }

  // ----- HMAC, section 2 of RFC 2104 -----

  function Xor(a: u8, b: u8): u8 {
    ((a as bv8) ^ (b as bv8)) as int
  }

  function XorAll(a: Bytes, b: Bytes): (r: Bytes)
    requires |a| == |b|
    ensures |r| == |a|
  {
    seq(|a|, i requires 0 <= i < |a| => Xor(a[i], b[i]))
  }

  function Repeat(c: u8, n: nat): (r: Bytes)
    ensures |r| == n
  {
    seq(n, i => c)
  }

  /** The key, hashed if it is longer than a block, padded with zeros to a block. */
  function BlockKey(key: Bytes): (k: Bytes)
    ensures |k| == 64
  {
    if |key| > 64 then Sha256(key) + Zeros(32) else key + Zeros(64 - |key|)
  }

  function Hmac(key: Bytes, msg: Bytes): (d: Bytes)
    ensures |d| == 32
  {
    var k := BlockKey(key);
    Sha256(XorAll(k, Repeat(0x5c, 64)) + Sha256(XorAll(k, Repeat(0x36, 64)) + msg))
  }

  // ----- PBKDF2, section 5.2 of RFC 8018 -----

  /** U_j of block `b`. */
  function Iterate(pw: Bytes, salt: Bytes, b: nat, j: nat): (u: Bytes)
    requires j >= 1
    ensures |u| == 32
    decreases j
  {
    if j == 1 then Hmac(pw, salt + BigBytes(b, 4)) else Hmac(pw, Iterate(pw, salt, b, j - 1))
  }

  /** U_1 xor ... xor U_c. */
  function XorSum(pw: Bytes, salt: Bytes, b: nat, c: nat): (t: Bytes)
    requires c >= 1
    ensures |t| == 32
    decreases c
  {
    if c == 1 then Iterate(pw, salt, b, 1) else XorAll(XorSum(pw, salt, b, c - 1), Iterate(pw, salt, b, c))
  }

  /** T_1 || ... || T_n. */
  function Blocks(pw: Bytes, salt: Bytes, c: nat, n: nat): (d: Bytes)
    requires c >= 1
    ensures |d| == 32 * n
    decreases n
  {
    if n == 0 then [] else Blocks(pw, salt, c, n - 1) + XorSum(pw, salt, n, c)
  }

  /** The number of blocks lib/sha256.c computes, in 32-bit arithmetic. */
  function BlockCount(outlen: u32): (n: nat) {
    Wrap(outlen + 31) / 32
  }

  /** They cover the requested length exactly when the rounding up does not wrap. */
  lemma BlocksCover(outlen: u32)
    ensures 32 * BlockCount(outlen) >= outlen <==> outlen <= 0xFFFF_FFE0
    ensures outlen <= 0xFFFF_FFE0 ==> 32 * BlockCount(outlen) < outlen + 32
  {
  }

  function Min(a: int, b: int): int {
    if a < b then a else b
  }

  /** The derived key: the concatenated blocks cut to `dkLen` bytes. */
  function Pbkdf2(pw: Bytes, salt: Bytes, c: nat, dkLen: nat): (d: Bytes)
    requires c >= 1
    ensures |d| == dkLen
  {
    Blocks(pw, salt, c, (dkLen + 31) / 32)[..dkLen]
  }
}
