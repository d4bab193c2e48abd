/** SHA-256 as FIPS 180-4 defines it, for messages made of bytes: a recursive transcription that
    sha256.cpp is measured against. */
module Fips180 {

  newtype Byte = b: int | 0 <= b < 256

  const TWO_64 := 0x1_0000_0000_0000_0000

  // ----- Section 3.2: rotation and addition -----

  function Rotr(value: bv32, bits: bv32): bv32
    requires 0 < bits < 32
  {
    (value >> bits) | (value << (32 - bits))
  }

  /** Addition modulo 2^32. */
  function Add(x: bv32, y: bv32): bv32 {
    x + y
  }

  /** Exclusive or of three words. */
  function Xor(x: bv32, y: bv32, z: bv32): bv32 {
    x ^ y ^ z
  }

  // ----- Section 4.1.2: functions on 32-bit words -----

  function Ch(x: bv32, y: bv32, z: bv32): bv32 {
    (x & y) ^ (!x & z)
  }

  function Maj(x: bv32, y: bv32, z: bv32): bv32 {
    (x & y) ^ (x & z) ^ (y & z)
  }

  function BigSigma0(x: bv32): bv32 {
    Xor(Rotr(x, 2), Rotr(x, 13), Rotr(x, 22))
  }

  function BigSigma1(x: bv32): bv32 {
    Xor(Rotr(x, 6), Rotr(x, 11), Rotr(x, 25))
  }

  function SmallSigma0(x: bv32): bv32 {
    Xor(Rotr(x, 7), Rotr(x, 18), x >> 3)
  }

  function SmallSigma1(x: bv32): bv32 {
    Xor(Rotr(x, 17), Rotr(x, 19), x >> 10)
  }

  // ----- Section 4.2.2: constants -----

  // In rows, because the verifier does not look far into a long literal.

  const K_0: seq<bv32> := [0x428a2f98, 0x71374491, 0xb5c0fbcf, 0xe9b5dba5, 0x3956c25b, 0x59f111f1, 0x923f82a4, 0xab1c5ed5]
  const K_1: seq<bv32> := [0xd807aa98, 0x12835b01, 0x243185be, 0x550c7dc3, 0x72be5d74, 0x80deb1fe, 0x9bdc06a7, 0xc19bf174]
  const K_2: seq<bv32> := [0xe49b69c1, 0xefbe4786, 0x0fc19dc6, 0x240ca1cc, 0x2de92c6f, 0x4a7484aa, 0x5cb0a9dc, 0x76f988da]
  const K_3: seq<bv32> := [0x983e5152, 0xa831c66d, 0xb00327c8, 0xbf597fc7, 0xc6e00bf3, 0xd5a79147, 0x06ca6351, 0x14292967]
  const K_4: seq<bv32> := [0x27b70a85, 0x2e1b2138, 0x4d2c6dfc, 0x53380d13, 0x650a7354, 0x766a0abb, 0x81c2c92e, 0x92722c85]
  const K_5: seq<bv32> := [0xa2bfe8a1, 0xa81a664b, 0xc24b8b70, 0xc76c51a3, 0xd192e819, 0xd6990624, 0xf40e3585, 0x106aa070]
  const K_6: seq<bv32> := [0x19a4c116, 0x1e376c08, 0x2748774c, 0x34b0bcb5, 0x391c0cb3, 0x4ed8aa4a, 0x5b9cca4f, 0x682e6ff3]
  const K_7: seq<bv32> := [0x748f82ee, 0x78a5636f, 0x84c87814, 0x8cc70208, 0x90befffa, 0xa4506ceb, 0xbef9a3f7, 0xc67178f2]

  const K: seq<bv32> := K_0 + K_1 + K_2 + K_3 + K_4 + K_5 + K_6 + K_7

  // ----- Section 5.1.1: padding -----

  function Zeros(n: nat): (z: seq<Byte>)
    ensures |z| == n && forall i | 0 <= i < n :: z[i] == 0
  {
    seq(n, i => 0)
  }

  predicate Aligned(length: nat, zeros: nat) {
    (length + 1 + zeros) % 64 == 56
  }

  /** The smallest number of zero bytes that leaves the length at 448 bits modulo 512. */
  function ZeroCount(length: nat): (z: nat)
    ensures Aligned(length, z)
    ensures forall y: nat | y < z :: !Aligned(length, y)
  {
    (119 - length % 64) % 64
  }

  /** The `n` low bytes of `v`, most significant first. */
  function Octets(n: nat, v: nat): (s: seq<Byte>)
    ensures |s| == n
  {
    if n == 0 then [] else Octets(n - 1, v / 256) + [(v % 256) as Byte]
  }

  /** A one bit and zero bits, and the length in bits as a 64-bit integer. */
  function Padding(length: nat): (p: seq<Byte>)
    ensures (length + |p|) % 64 == 0
  {
    var z := ZeroCount(length);
    WholeBlocks(length + 1 + z);
    [0x80] + Zeros(z) + Octets(8, 8 * length % TWO_64)
  }

  lemma WholeBlocks(n: nat)
    requires n % 64 == 56
    ensures (n + 8) % 64 == 0
  {
  }

  function Padded(message: seq<Byte>): (p: seq<Byte>)
    ensures |p| % 64 == 0
  {
    message + Padding(|message|)
  }

  // ----- Sections 5.3.3 and 6.2.2: initial value and computation -----

  /** The working variables, and the hash value. */
  datatype Words = Words(a: bv32, b: bv32, c: bv32, d: bv32, e: bv32, f: bv32, g: bv32, h: bv32) {
    function Plus(v: Words): Words {
      Words(Add(a, v.a), Add(b, v.b), Add(c, v.c), Add(d, v.d), Add(e, v.e), Add(f, v.f), Add(g, v.g), Add(h, v.h))
    }
  }

  function InitialHash(): Words {
    Words(0x6a09e667, 0xbb67ae85, 0x3c6ef372, 0xa54ff53a, 0x510e527f, 0x9b05688c, 0x1f83d9ab, 0x5be0cd19)
  }

  function Join(p: bv32, q: bv32, r: bv32, s: bv32): bv32 {
    (((((p << 8) | q) << 8) | r) << 8) | s
  }

  function JoinBytes(p: Byte, q: Byte, r: Byte, s: Byte): bv32 {
    Join(p as bv32, q as bv32, r as bv32, s as bv32)
  }

  /** Word `t` of a block: its bytes shifted in one after the other. */
  function Word(block: seq<Byte>, t: nat): bv32
    requires |block| == 64 && t < 16
  {
    JoinBytes(block[4 * t], block[4 * t + 1], block[4 * t + 2], block[4 * t + 3])
  }

  /** The sixteen words of a block. */
  function BlockWords(block: seq<Byte>): (m: seq<bv32>)
    requires |block| == 64
    ensures |m| == 16
  {
    seq(16, t requires 0 <= t < 16 => Word(block, t))
  }

  /** The message schedule. */
  function W(m: seq<bv32>, t: nat): bv32
    requires |m| == 16 && t < 64
  {
    if t < 16 then m[t]
    else Add(Add(Add(W(m, t - 16), SmallSigma0(W(m, t - 15))), W(m, t - 7)), SmallSigma1(W(m, t - 2)))
  }

  function Schedule(m: seq<bv32>): (ws: seq<bv32>)
    requires |m| == 16
    ensures |ws| == 64
  {
    seq(64, t requires 0 <= t < 64 => W(m, t))
  }

  function Round(s: Words, k: bv32, w: bv32): Words {
    var t1 := Add(Add(Add(Add(s.h, BigSigma1(s.e)), Ch(s.e, s.f, s.g)), k), w);
    var t2 := Add(BigSigma0(s.a), Maj(s.a, s.b, s.c));
    Words(Add(t1, t2), s.a, s.b, s.c, Add(s.d, t1), s.e, s.f, s.g)
  }

  /** `t` rounds with constants `ks` and schedule `ws`. */
  function Rounds(s: Words, ks: seq<bv32>, ws: seq<bv32>, t: nat): Words
    requires t <= |ks| && t <= |ws|
  {
    if t == 0 then s else Round(Rounds(s, ks, ws, t - 1), ks[t - 1], ws[t - 1])
  }

  function Compress(hash: Words, block: seq<Byte>): Words
    requires |block| == 64
  {
    hash.Plus(Rounds(hash, K, Schedule(BlockWords(block)), 64))
  }

  type Block = b: seq<Byte> | |b| == 64 witness seq(64, i => 0)

  /** Iterates a compression function over the blocks of a padded message. */
  function Absorb(compress: (Words, Block) -> Words, hash: Words, padded: seq<Byte>): Words
    decreases |padded|
  {
    if |padded| < 64 then hash else Absorb(compress, compress(hash, padded[..64]), padded[64..])
  }

  function Compression(): (Words, Block) -> Words {
    (hash: Words, block: Block) => Compress(hash, block)
  }

  function Digest(message: seq<Byte>): Words {
    Absorb(Compression(), InitialHash(), Padded(message))
  }

  // ----- The digest in hexadecimal -----

  function Nibble(w: bv32, shift: nat): (d: bv32)
    requires shift < 32
    ensures d < 16
  {
    (w >> shift) & 0x0F
  }

  function HexDigit(d: bv32): char
    requires d < 16
  {
    "0123456789abcdef"[d as int]
  }

  /** The first `n` nibbles of a word, most significant first. */
  function HexDigits(w: bv32, n: nat): (s: string)
    requires n <= 8
    ensures |s| == n
    ensures forall i | 0 <= i < n :: s[i] in "0123456789abcdef"
  {
    if n == 0 then "" else HexDigits(w, n - 1) + [HexDigit(Nibble(w, 28 - 4 * (n - 1)))]
  }

  function HexWord(w: bv32): (s: string)
    ensures |s| == 8
    ensures forall i | 0 <= i < 8 :: s[i] in "0123456789abcdef"
  {
    HexDigits(w, 8)
  }

  function HexWords(ws: seq<bv32>): (s: string)
    ensures |s| == 8 * |ws|
    ensures forall i | 0 <= i < |s| :: s[i] in "0123456789abcdef"
  {
    if ws == [] then "" else HexWords(ws[..|ws| - 1]) + HexWord(ws[|ws| - 1])
  }

  function Hex(v: Words): (s: string)
    ensures |s| == 64
    ensures forall i | 0 <= i < 64 :: s[i] in "0123456789abcdef"
  {
    HexWords([v.a, v.b, v.c, v.d, v.e, v.f, v.g, v.h])
  }
}
