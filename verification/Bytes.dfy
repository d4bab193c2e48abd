/** Octets and big-endian integers.

    A C++ `std::string` (and a `std::vector<uint8_t>`) is modelled as a Dafny `string`;
    `Octet` is the cast of one of its elements to `uint8_t`.  A Dafny `char` is wider than a
    C++ one, so the few statements that run from bytes back to values say `IsBytes`. */
module Bytes {

  ghost predicate IsBytes(s: string) {
    forall i | 0 <= i < |s| :: s[i] as int < 256
  }

  function Octet(c: char): (o: int)
    ensures 0 <= o < 256
  {
    c as int % 256
  }

  function Pow256(n: nat): (p: nat)
    ensures p > 0
  {
    if n == 0 then 1 else 256 * Pow256(n - 1)
  }

  lemma Widths()
    ensures Pow256(2) == 0x1_0000
    ensures Pow256(4) == 0x1_0000_0000
    ensures Pow256(8) == 0x1_0000_0000_0000_0000
  {
    assert Pow256(3) == 256 * Pow256(2);
    assert Pow256(4) == 256 * Pow256(3);
    assert Pow256(5) == 256 * Pow256(4);
    assert Pow256(6) == 256 * Pow256(5);
    assert Pow256(7) == 256 * Pow256(6);
    assert Pow256(8) == 256 * Pow256(7);
  }

  /** The low `n` bytes of `v`, most significant first. */
  function BigEndian(n: nat, v: nat): (s: string)
    ensures |s| == n
    ensures IsBytes(s)
  {
    if n == 0 then "" else BigEndian(n - 1, v / 256) + [(v % 256) as char]
  }

  /** The number a big-endian byte string denotes. */
  function Value(s: string): nat {
    if s == "" then 0 else 256 * Value(s[..|s| - 1]) + Octet(s[|s| - 1])
  }

  lemma {:induction false} ValueBound(s: string)
    ensures Value(s) < Pow256(|s|)
  {
    if s != "" {
      ValueBound(s[..|s| - 1]);
    }
  }

  lemma MulMonotone(d: int, k: int)
    requires d > 0 && k >= 1
    ensures d * k >= d
  {
  }

  /** Quotient and remainder are determined by their defining equation. */
  lemma EuclidUnique(v: int, d: int, m: int, r: int)
    requires d > 0 && v == d * m + r && 0 <= r < d
    ensures v % d == r && v / d == m
  {
    var k := v / d - m;
    assert d * k == r - v % d by {
      assert v == d * (v / d) + v % d;
      assert d * k == d * (v / d) - d * m;
    }
    if k >= 1 {
      MulMonotone(d, k);
    } else if k <= -1 {
      MulMonotone(d, -k);
    }
  }

  lemma DivisionStep(v: nat, p: nat)
    requires p > 0
    ensures 256 * (v / 256 % p) + v % 256 == v % (256 * p)
  {
    var q, b := v / 256, v % 256;
    var m, r := q / p, q % p;
    assert v == (256 * p) * m + (256 * r + b) by {
      assert q == p * m + r;
      assert 256 * (p * m) == (256 * p) * m;
    }
    EuclidUnique(v, 256 * p, m, 256 * r + b);
  }

  lemma QuotientTwice(v: nat, p: nat)
    requires p > 0
    ensures v / 256 / p == v / (256 * p)
  {
    var q, m, r := v / 256, v / 256 / p, v / 256 % p;
    assert v == (256 * p) * m + (256 * r + v % 256) by {
      assert q == p * m + r;
      assert 256 * (p * m) == (256 * p) * m;
    }
    EuclidUnique(v, 256 * p, m, 256 * r + v % 256);
  }

  /** Big-endian: byte `i` of `n` holds the 256ths of what the bytes behind it leave. */
  lemma {:induction false} BigEndianAt(n: nat, v: nat, i: nat)
    requires i < n
    ensures BigEndian(n, v)[i] as int == v / Pow256(n - 1 - i) % 256
  {
    if i < n - 1 {
      BigEndianAt(n - 1, v / 256, i);
      QuotientTwice(v, Pow256(n - 2 - i));
    }
  }

  /** `v >> 8 * n`. */
  function Shift(v: nat, n: nat): nat {
    if n == 0 then v else Shift(v, n - 1) / 256
  }

  /** Writing `n` bytes truncates to that width, and nothing else is lost. */
  lemma {:induction false} ValueOfBigEndian(n: nat, v: nat)
    ensures Value(BigEndian(n, v)) == v % Pow256(n)
  {
    if n > 0 {
      var s := BigEndian(n, v);
      assert s[..|s| - 1] == BigEndian(n - 1, v / 256);
      ValueOfBigEndian(n - 1, v / 256);
      assert Octet(s[|s| - 1]) == v % 256;
      var p := Pow256(n - 1);
      assert Value(s) == 256 * (v / 256 % p) + v % 256;
      DivisionStep(v, p);
    }
  }

  lemma SmallMod(v: nat, p: nat)
    requires v < p
    ensures v % p == v
  {
  }

  lemma ValueOfFitting(n: nat, v: nat)
    requires v < Pow256(n)
    ensures Value(BigEndian(n, v)) == v
  {
    ValueOfBigEndian(n, v);
    SmallMod(v, Pow256(n));
  }

  /** Big-endian notation of a given width is canonical. */
  lemma {:induction false} BigEndianOfValue(s: string)
    requires IsBytes(s)
    ensures BigEndian(|s|, Value(s)) == s
  {
    if s != "" {
      var front := s[..|s| - 1];
      BigEndianOfValue(front);
      EuclidUnique(Value(s), 256, Value(front), Octet(s[|s| - 1]));
      assert s == front + [s[|s| - 1]];
    }
  }
}
