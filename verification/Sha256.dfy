/** sha256.cpp: one function, over a growing byte vector and two arrays of 32-bit words. */
module Sha256 {
  import opened Fips180
  import Bytes
  import opened Seqs

  /** `std::vector<uint8_t>(input.begin(), input.end())`. */
  function BytesOf(input: string): seq<Byte> {
    seq(|input|, i requires 0 <= i < |input| => Bytes.Octet(input[i]) as Byte)
  }

  function HexDigest(input: string): (s: string)
    ensures |s| == 64
    ensures forall i | 0 <= i < 64 :: s[i] in "0123456789abcdef"
  {
    Hex(Digest(BytesOf(input)))
  }

  // ----- Bit-level facts -----

  /** Shifting both ways rotates, for every amount SHA-256 uses. */
  lemma RotrRotates(x: bv32)
    ensures Rotr(x, 2) == x.RotateRight(2) && Rotr(x, 13) == x.RotateRight(13) && Rotr(x, 22) == x.RotateRight(22)
    ensures Rotr(x, 6) == x.RotateRight(6) && Rotr(x, 11) == x.RotateRight(11) && Rotr(x, 25) == x.RotateRight(25)
    ensures Rotr(x, 7) == x.RotateRight(7) && Rotr(x, 18) == x.RotateRight(18)
    ensures Rotr(x, 17) == x.RotateRight(17) && Rotr(x, 19) == x.RotateRight(19)
  {
  }

  lemma JoinShifts(p: bv32, q: bv32, r: bv32, s: bv32)
    ensures (p << 24) | (q << 16) | (r << 8) | s == Join(p, q, r, s)
  {
  }

  // ----- Padding -----

  lemma ZerosGrow(start: seq<Byte>, n: nat)
    ensures (start + Zeros(n)) + [0] == start + Zeros(n + 1)
  {
    assert Zeros(n) + [0] == Zeros(n + 1);
  }

  /** Pads with zeros until the length is 56 modulo 64; the fewest that do. */
  method AppendZeros(start: seq<Byte>, ghost length: nat) returns (message: seq<Byte>)
    requires |start| == length + 1
    ensures message == start + Zeros(ZeroCount(length))
  {
    message := start;
    ghost var zeros, wanted: nat := 0, ZeroCount(length);
    assert start + Zeros(0) == start;
    while |message| % 64 != 56
      invariant zeros <= wanted && |message| == length + 1 + zeros
      invariant message == start + Zeros(zeros)
      decreases wanted - zeros
    {
      assert !Aligned(length, zeros);
      ZerosGrow(start, zeros);
      message := message + [0x00];
      zeros := zeros + 1;
    }
    assert Aligned(length, zeros);
  }

  lemma OctetsGrow(body: seq<Byte>, n: nat, v: nat)
    ensures (body + Octets(n, v / 256)) + [(v % 256) as Byte] == body + Octets(n + 1, v)
  {
  }

  /** The low `width` bytes of `value`: the shift `i`, in bytes, runs down to 0. */
  method AppendLength(body: seq<Byte>, width: nat, value: nat) returns (message: seq<Byte>)
    ensures message == body + Octets(width, value)
  {
    message := body;
    var i := width;
    while i > 0
      invariant 0 <= i <= width
      invariant message == body + Octets(width - i, Bytes.Shift(value, i))
    {
      i := i - 1;
      var high := Bytes.Shift(value, i);
      OctetsGrow(body, width - i - 1, high);
      message := message + [(high % 0x100) as Byte];
    }
  }

  lemma ThreeParts(m: seq<Byte>, z: seq<Byte>, l: seq<Byte>)
    ensures ((m + [0x80]) + z) + l == m + ([0x80] + z + l)
  {
  }

  lemma PaddedParts(m: seq<Byte>, z: seq<Byte>, l: seq<Byte>)
    requires Padding(|m|) == [0x80] + z + l
    ensures ((m + [0x80]) + z) + l == Padded(m)
  {
    ThreeParts(m, z, l);
  }

  lemma PaddingParts(length: nat, bits: nat)
    requires bits == 8 * length % TWO_64
    ensures Padding(length) == [0x80] + Zeros(ZeroCount(length)) + Octets(8, bits)
  {
  }

  method Pad(input: string) returns (message: seq<Byte>)
    ensures message == Padded(BytesOf(input))
  {
    message := BytesOf(input);
    var bitLength := |message| * 8 % TWO_64;
    PaddingParts(|input|, bitLength);
    PaddedParts(message, Zeros(ZeroCount(|input|)), Octets(8, bitLength));
    message := message + [0x80];
    message := AppendZeros(message, |input|);
    message := AppendLength(message, 8, bitLength);
  }

  // ----- Message schedule -----

  /** Four bytes, shifted into their places. */
  method LoadWord(message: seq<Byte>, at: nat) returns (word: bv32)
    requires at + 4 <= |message|
    ensures word == JoinBytes(message[at], message[at + 1], message[at + 2], message[at + 3])
  {
    var p, q, r, s := message[at] as bv32, message[at + 1] as bv32, message[at + 2] as bv32, message[at + 3] as bv32;
    JoinShifts(p, q, r, s);
    word := (p << 24) | (q << 16) | (r << 8) | s;
  }

  lemma BytesIn(message: seq<Byte>, offset: nat, t: nat)
    requires offset + 64 <= |message| && t < 16
    ensures var block, at := message[offset..offset + 64], offset + t * 4;
            && block[4 * t] == message[at] && block[4 * t + 1] == message[at + 1]
            && block[4 * t + 2] == message[at + 2] && block[4 * t + 3] == message[at + 3]
  {
  }

  /** `w[0..16]` from the bytes of the block at `offset`. */
  method LoadWords(message: seq<Byte>, offset: nat, w: array<bv32>)
    requires offset + 64 <= |message| && w.Length == 64
    modifies w
    ensures w[..16] == BlockWords(message[offset..offset + 64])
  {
    ghost var block := message[offset..offset + 64];
    var i := 0;
    while i < 16
      invariant 0 <= i <= 16
      invariant forall t | 0 <= t < i :: w[t] == Word(block, t)
    {
      BytesIn(message, offset, i);
      w[i] := LoadWord(message, offset + i * 4);
      i := i + 1;
    }
  }

  method ExtendWords(w: array<bv32>)
    requires w.Length == 64
    modifies w
    ensures w[..] == Schedule(old(w[..16]))
  {
    ghost var m := w[..16];
    var i := 16;
    while i < 64
      invariant 16 <= i <= 64
      invariant forall t | 0 <= t < i :: w[t] == W(m, t)
    {
      var s0 := SmallSigma0(w[i - 15]);
      var s1 := SmallSigma1(w[i - 2]);
      w[i] := Add(Add(Add(w[i - 16], s0), w[i - 7]), s1);
      i := i + 1;
    }
  }

  // ----- The 64 rounds and the feed-forward -----

  function WordsOf(hash: seq<bv32>): Words
    requires |hash| == 8
  {
    Words(hash[0], hash[1], hash[2], hash[3], hash[4], hash[5], hash[6], hash[7])
  }

  method CompressBlock(hash: array<bv32>, w: array<bv32>)
    requires hash.Length == 8 && w.Length == 64 && hash != w
    modifies hash
    ensures WordsOf(hash[..]) == WordsOf(old(hash[..])).Plus(Rounds(WordsOf(old(hash[..])), K, w[..], 64))
  {
    var a, b, c, d := hash[0], hash[1], hash[2], hash[3];
    var e, f, g, h := hash[4], hash[5], hash[6], hash[7];
    ghost var start, ws := Words(a, b, c, d, e, f, g, h), w[..];
    var i := 0;
    while i < 64
      invariant 0 <= i <= 64
      invariant Words(a, b, c, d, e, f, g, h) == Rounds(start, K, ws, i)
    {
      var S1 := BigSigma1(e);
      var ch := Ch(e, f, g);
      var temp1 := Add(Add(Add(Add(h, S1), ch), K[i]), w[i]);
      var S0 := BigSigma0(a);
      var maj := Maj(a, b, c);
      var temp2 := Add(S0, maj);
      h := g;
      g := f;
      f := e;
      e := Add(d, temp1);
      d := c;
      c := b;
      b := a;
      a := Add(temp1, temp2);
      i := i + 1;
    }
    FeedForward(hash, Words(a, b, c, d, e, f, g, h));
  }

  method FeedForward(hash: array<bv32>, v: Words)
    requires hash.Length == 8
    modifies hash
    ensures WordsOf(hash[..]) == WordsOf(old(hash[..])).Plus(v)
  {
    hash[0] := Add(hash[0], v.a);
    hash[1] := Add(hash[1], v.b);
    hash[2] := Add(hash[2], v.c);
    hash[3] := Add(hash[3], v.d);
    hash[4] := Add(hash[4], v.e);
    hash[5] := Add(hash[5], v.f);
    hash[6] := Add(hash[6], v.g);
    hash[7] := Add(hash[7], v.h);
  }

  // ----- Hexadecimal output -----

  lemma HexGrows(out: string, value: bv32, n: nat, shift: int)
    requires n < 8 && shift == 28 - 4 * n
    ensures (out + HexDigits(value, n)) + [HexDigit(Nibble(value, shift))] == out + HexDigits(value, n + 1)
  {
    Associative(out, HexDigits(value, n), [HexDigit(Nibble(value, shift))]);
  }

  method AppendHex(out: string, value: bv32) returns (out': string)
    ensures out' == out + HexWord(value)
  {
    out' := out;
    var shift := 28;
    ghost var n := 0;
    while shift >= 0
      invariant 0 <= n <= 8 && shift == 28 - 4 * n
      invariant out' == out + HexDigits(value, n)
    {
      HexGrows(out, value, n, shift);
      out' := out' + [HexDigit(Nibble(value, shift))];
      shift := shift - 4;
      n := n + 1;
    }
  }

  method HexOf(hash: array<bv32>) returns (result: string)
    requires hash.Length == 8
    ensures result == Hex(WordsOf(hash[..]))
  {
    result := "";
    ghost var words := hash[..];
    var i := 0;
    while i < 8
      invariant 0 <= i <= 8
      invariant result == HexWords(words[..i])
    {
      result := AppendHex(result, hash[i]);
      HexWordsGrow(words, i);
      i := i + 1;
    }
    assert words[..8] == [words[0], words[1], words[2], words[3], words[4], words[5], words[6], words[7]];
  }

  lemma HexWordsGrow(ws: seq<bv32>, i: nat)
    requires i < |ws|
    ensures HexWords(ws[..i + 1]) == HexWords(ws[..i]) + HexWord(ws[i])
  {
    assert ws[..i + 1][..i] == ws[..i];
  }

  lemma {:induction false} DigitsKept(w: bv32, n: nat, i: nat)
    requires i < n <= 8
    ensures HexDigits(w, i + 1) <= HexDigits(w, n)
  {
    if i < n - 1 {
      DigitsKept(w, n - 1, i);
    }
  }

  lemma DigitAt(w: bv32, i: nat)
    requires i < 8
    ensures HexWord(w)[i] == HexDigit(Nibble(w, 28 - 4 * i))
  {
    DigitsKept(w, 8, i);
    assert HexDigits(w, i + 1) == HexDigits(w, i) + [HexDigit(Nibble(w, 28 - 4 * i))];
  }

  lemma {:induction false} WordAt(ws: seq<bv32>, j: nat, i: nat)
    requires j < |ws| && i < 8
    ensures HexWords(ws)[8 * j + i] == HexWord(ws[j])[i]
  {
    if j < |ws| - 1 {
      WordAt(ws[..|ws| - 1], j, i);
    }
  }

  /** Character `8 * j + i` of the text spells nibble `i`, from the top, of word `j`. */
  lemma HexAt(v: Words, j: nat, i: nat)
    requires j < 8 && i < 8
    ensures var w := [v.a, v.b, v.c, v.d, v.e, v.f, v.g, v.h][j];
            Hex(v)[8 * j + i] == HexDigit((w >> (28 - 4 * i)) & 0x0F)
  {
    var ws := [v.a, v.b, v.c, v.d, v.e, v.f, v.g, v.h];
    WordAt(ws, j, i);
    DigitAt(ws[j], i);
  }

  /** A digit has the value it shows. */
  lemma DigitValue(d: bv32)
    requires d < 16
    ensures d < 10 ==> HexDigit(d) as int == '0' as int + d as int
    ensures d >= 10 ==> HexDigit(d) as int == 'a' as int + (d as int - 10)
  {
    var n := d as int;
    match n
    case 0 => case 1 => case 2 => case 3 => case 4 => case 5 => case 6 => case 7 =>
    case 8 => case 9 => case 10 => case 11 => case 12 => case 13 => case 14 => case _ =>
  }

  // ----- The whole function -----

  /** `compress` is the compression function, seen only where `Compress` is written. */
  ghost predicate IsCompression(compress: (Words, Block) -> Words) {
    forall hash, block: Block {:trigger Compress(hash, block)} :: compress(hash, block) == Compress(hash, block)
  }

  method AbsorbBlock(hash: array<bv32>, message: seq<Byte>, offset: nat, w: array<bv32>,
                     ghost compress: (Words, Block) -> Words)
    requires hash.Length == 8 && w.Length == 64 && hash != w && offset + 64 <= |message|
    requires IsCompression(compress)
    modifies hash, w
    ensures WordsOf(hash[..]) == compress(WordsOf(old(hash[..])), message[offset..offset + 64])
  {
    ghost var before := WordsOf(hash[..]);
    LoadWords(message, offset, w);
    ExtendWords(w);
    CompressBlock(hash, w);
    assert WordsOf(hash[..]) == Compress(before, message[offset..offset + 64]);
  }

  lemma AbsorbStep(compress: (Words, Block) -> Words, hash: Words, message: seq<Byte>, offset: nat)
    requires offset + 64 <= |message|
    ensures Absorb(compress, hash, message[offset..])
            == Absorb(compress, compress(hash, message[offset..offset + 64]), message[offset + 64..])
  {
    var rest := message[offset..];
    assert rest[..64] == message[offset..offset + 64];
    assert rest[64..] == message[offset + 64..];
  }

  method AbsorbAll(hash: array<bv32>, message: seq<Byte>, ghost compress: (Words, Block) -> Words)
    requires hash.Length == 8 && |message| % 64 == 0 && IsCompression(compress)
    modifies hash
    ensures WordsOf(hash[..]) == Absorb(compress, WordsOf(old(hash[..])), message)
  {
    var w := new bv32[64];
    ghost var result := Absorb(compress, WordsOf(hash[..]), message);
    var offset := 0;
    assert message[0..] == message;
    while offset < |message|
      invariant 0 <= offset <= |message| && (|message| - offset) % 64 == 0
      invariant Absorb(compress, WordsOf(hash[..]), message[offset..]) == result
    {
      AbsorbStep(compress, WordsOf(hash[..]), message, offset);
      AbsorbBlock(hash, message, offset, w, compress);
      offset := offset + 64;
    }
  }

  /** The array-and-loop program computes the digest of the standard, in hexadecimal. */
  method Sha256Hex(input: string) returns (result: string)
    ensures result == HexDigest(input)
  {
    var message := Pad(input);
    var hash := new bv32[8] [0x6a09e667, 0xbb67ae85, 0x3c6ef372, 0xa54ff53a,
                             0x510e527f, 0x9b05688c, 0x1f83d9ab, 0x5be0cd19];
    AbsorbAll(hash, message, Compression());
    result := HexOf(hash);
  }

  // ----- The rounds are a permutation of the state -----

  function Subtract(x: bv32, y: bv32): bv32 {
    x - y
  }

  lemma SubtractAdded(x: bv32, y: bv32)
    ensures Subtract(Add(x, y), y) == x
  {
    assert Add(x, y) == x + y;
    assert Subtract(x + y, y) == (x + y) - y;
  }

  lemma AddSubtracted(x: bv32, y: bv32)
    ensures Add(Subtract(x, y), y) == x
  {
    assert Subtract(x, y) == x - y;
    assert Add(x - y, y) == (x - y) + y;
  }

  lemma AddSubtract(x: bv32, y: bv32)
    ensures Subtract(Add(x, y), y) == x && Add(Subtract(x, y), y) == x
  {
    SubtractAdded(x, y);
    AddSubtracted(x, y);
  }

  /** The round function run backwards. */
  function Unround(s: Words, k: bv32, w: bv32): Words {
    var t2 := Add(BigSigma0(s.b), Maj(s.b, s.c, s.d));
    var t1 := Subtract(s.a, t2);
    var h := Subtract(Subtract(Subtract(Subtract(t1, w), k), Ch(s.f, s.g, s.h)), BigSigma1(s.f));
    Words(s.b, s.c, s.d, Subtract(s.e, t1), s.f, s.g, s.h, h)
  }

  lemma RoundUndone(s: Words, k: bv32, w: bv32)
    ensures Unround(Round(s, k, w), k, w) == s
  {
    var x := Add(s.h, BigSigma1(s.e));
    var y := Add(x, Ch(s.e, s.f, s.g));
    var z := Add(y, k);
    var t1, t2 := Add(z, w), Add(BigSigma0(s.a), Maj(s.a, s.b, s.c));
    AddSubtract(t1, t2);
    AddSubtract(z, w);
    AddSubtract(y, k);
    AddSubtract(x, Ch(s.e, s.f, s.g));
    AddSubtract(s.h, BigSigma1(s.e));
    AddSubtract(s.d, t1);
  }

  lemma UnroundRedone(s: Words, k: bv32, w: bv32)
    ensures Round(Unround(s, k, w), k, w) == s
  {
    var t2 := Add(BigSigma0(s.b), Maj(s.b, s.c, s.d));
    var t1 := Subtract(s.a, t2);
    var z := Subtract(t1, w);
    var y := Subtract(z, k);
    var x := Subtract(y, Ch(s.f, s.g, s.h));
    AddSubtract(s.a, t2);
    AddSubtract(t1, w);
    AddSubtract(z, k);
    AddSubtract(y, Ch(s.f, s.g, s.h));
    AddSubtract(x, BigSigma1(s.f));
    AddSubtract(s.e, t1);
  }

  function Unrounds(s: Words, ks: seq<bv32>, ws: seq<bv32>, t: nat): Words
    requires t <= |ks| && t <= |ws|
    decreases t
  {
    if t == 0 then s else Unrounds(Unround(s, ks[t - 1], ws[t - 1]), ks, ws, t - 1)
  }

  /** For a fixed block, the rounds before the feed-forward map the working variables one to
      one and onto: `Unrounds` is their inverse from both sides. */
  lemma {:induction false} RoundsArePermutation(s: Words, ks: seq<bv32>, ws: seq<bv32>, t: nat)
    requires t <= |ks| && t <= |ws|
    ensures Unrounds(Rounds(s, ks, ws, t), ks, ws, t) == s
    ensures Rounds(Unrounds(s, ks, ws, t), ks, ws, t) == s
    decreases t
  {
    if t > 0 {
      var k, w := ks[t - 1], ws[t - 1];
      RoundUndone(Rounds(s, ks, ws, t - 1), k, w);
      RoundsArePermutation(s, ks, ws, t - 1);
      UnroundRedone(s, k, w);
      RoundsArePermutation(Unround(s, k, w), ks, ws, t - 1);
    }
  }

  // ----- Padding is suffix-free -----

  lemma {:induction false} OctetsInjective(n: nat, u: nat, v: nat)
    requires u < Bytes.Pow256(n) && v < Bytes.Pow256(n) && Octets(n, u) == Octets(n, v)
    ensures u == v
  {
    if n > 0 {
      assert Octets(n, u)[..n - 1] == Octets(n - 1, u / 256);
      assert Octets(n, v)[..n - 1] == Octets(n - 1, v / 256);
      assert Octets(n, u)[n - 1] == Octets(n, v)[n - 1];
      OctetsInjective(n - 1, u / 256, v / 256);
    }
  }

  lemma SmallLength(n: nat)
    requires n < 0x2000_0000_0000_0000
    ensures 8 * n % TWO_64 == 8 * n
  {
  }

  /** A padded message is the message, one bit, the fewest zeros, and the length in bits. */
  lemma PaddedEnds(m: seq<Byte>)
    requires |m| < 0x2000_0000_0000_0000
    ensures var p, zeros := Padded(m), ZeroCount(|m|);
            && |p| == |m| + 9 + zeros && p[..|m|] == m && p[|m|] == 0x80
            && (forall i | |m| < i <= |m| + zeros :: p[i] == 0)
            && p[|p| - 8..] == Octets(8, 8 * |m|)
  {
    var head, length := [0x80] + Zeros(ZeroCount(|m|)), Octets(8, 8 * |m|);
    SmallLength(|m|);
    Associative(m, head, length);
    SlicesOfThree(m, head, length);
  }

  /** Octets are big-endian: byte `i` of `n` is what the bytes behind it leave of the number. */
  lemma {:induction false} OctetAt(n: nat, v: nat, i: nat)
    requires i < n
    ensures Octets(n, v)[i] as int == v / Bytes.Pow256(n - 1 - i) % 256
  {
    if i < n - 1 {
      OctetAt(n - 1, v / 256, i);
      Bytes.QuotientTwice(v, Bytes.Pow256(n - 2 - i));
    }
  }

  /** No padded message is a suffix of another's, so padding loses nothing. */
  lemma PaddingSuffixFree(m: seq<Byte>, m': seq<Byte>, front: seq<Byte>)
    requires |m| < 0x2000_0000_0000_0000 && |m'| < 0x2000_0000_0000_0000
    requires Padded(m') == front + Padded(m)
    ensures m == m' && front == []
  {
    var p, p' := Padded(m), Padded(m');
    PaddedEnds(m);
    PaddedEnds(m');
    assert p'[|p'| - 8..] == p[|p| - 8..];
    SameLength(|m|, |m'|);
    assert |Padding(|m|)| == |Padding(|m'|)|;
    assert front == [] by {
      assert |p| == |p'|;
    }
    assert p == p';
  }

  lemma SameLength(n: nat, n': nat)
    requires n < 0x2000_0000_0000_0000 && n' < 0x2000_0000_0000_0000
    requires Octets(8, 8 * n) == Octets(8, 8 * n')
    ensures n == n'
  {
    Bytes.Widths();
    OctetsInjective(8, 8 * n, 8 * n');
  }
}
