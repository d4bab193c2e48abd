/** Laws of binary codecs, proved once for integers, length-prefixed text, pairs and counted
    lists.  The records of protocol.cpp are instances (see Messages). */
module Codec {
  import opened Bytes
  import opened Seqs

  type Int64 = x: int | -0x8000_0000_0000_0000 <= x < 0x8000_0000_0000_0000

  /** The value a byte string starts with, and the bytes behind it. */
  datatype Parsed<+T> = Parsed(value: T, rest: string) | Malformed

  /** A printer, a parser, and the values whose length prefixes do not wrap around. */
  datatype Codec<!T> = Codec(write: T -> string, read: string -> Parsed<T>, fits: T -> bool) {

    /** Parsing what was printed gives the value back, whatever follows it. */
    ghost predicate RoundTrips(x: T, tail: string) {
      fits(x) ==> read(write(x) + tail) == Parsed(x, tail)
    }

    /** Whatever parses is the printed form of its value, followed by the rest. */
    ghost predicate CanonicalOn(s: string) {
      read(s).Parsed? ==>
        && fits(read(s).value)
        && |read(s).rest| <= |s|
        && (IsBytes(s) ==> s == write(read(s).value) + read(s).rest)
    }

    /** Parsing looks at no byte behind the value. */
    ghost predicate LocalOn(s: string, t: string) {
      read(s).Parsed? ==> read(s + t) == Parsed(read(s).value, read(s).rest + t)
    }
  }

  ghost predicate Lawful<T(!new)>(c: Codec<T>) {
    && (forall x, tail :: c.RoundTrips(x, tail))
    && (forall s :: c.CanonicalOn(s))
    && (forall s, t :: c.LocalOn(s, t))
  }

  /** No strict prefix of a printed value parses. */
  lemma TruncationRejected<T(!new)>(c: Codec<T>, x: T, k: nat)
    requires Lawful(c) && c.fits(x) && k < |c.write(x)|
    ensures c.read(c.write(x)[..k]).Malformed?
  {
    var s := c.write(x);
    assert s[..k] + s[k..] == s + "";
    assert c.RoundTrips(x, "") && c.LocalOn(s[..k], s[k..]);
  }

  /** A value comes back exactly when its length prefixes can hold it. */
  lemma ComesBackIff<T(!new)>(c: Codec<T>, x: T, tail: string)
    requires Lawful(c)
    ensures c.read(c.write(x) + tail) == Parsed(x, tail) <==> c.fits(x)
  {
    assert c.RoundTrips(x, tail) && c.CanonicalOn(c.write(x) + tail);
  }

  /** Two readings of the same bytes agree: a printed value is never a prefix of another's. */
  lemma PrefixFree<T(!new)>(c: Codec<T>, x: T, y: T, tail: string)
    requires Lawful(c) && c.fits(x) && c.fits(y) && c.write(x) + tail == c.write(y)
    ensures x == y && tail == ""
  {
    assert c.write(y) + "" == c.write(y);
    assert c.RoundTrips(x, tail) && c.RoundTrips(y, "");
  }

  // ----- Integers -----

  function Uint(n: nat): Codec<nat> {
    Codec((v: nat) => BigEndian(n, v), s => ReadUint(n, s), (v: nat) => v < Pow256(n))
  }

  function ReadUint(n: nat, s: string): Parsed<nat> {
    if |s| < n then Malformed else Parsed(Value(s[..n]), s[n..])
  }

  lemma ReadUintBack(n: nat, v: nat, tail: string)
    requires v < Pow256(n)
    ensures ReadUint(n, BigEndian(n, v) + tail) == Parsed(v, tail)
  {
    ValueOfFitting(n, v);
    assert (BigEndian(n, v) + tail)[..n] == BigEndian(n, v);
  }

  lemma ReadUintLocal(n: nat, s: string, t: string)
    requires |s| >= n
    ensures ReadUint(n, s + t) == Parsed(Value(s[..n]), s[n..] + t)
  {
    assert (s + t)[..n] == s[..n];
  }

  lemma UintLawful(n: nat)
    ensures Lawful(Uint(n))
  {
    forall v: nat, tail ensures Uint(n).RoundTrips(v, tail) {
      if v < Pow256(n) {
        ReadUintBack(n, v, tail);
      }
    }
    forall s ensures Uint(n).CanonicalOn(s) {
      if |s| >= n {
        ValueBound(s[..n]);
        if IsBytes(s) {
          BigEndianOfValue(s[..n]);
        }
      }
    }
    forall s, t ensures Uint(n).LocalOn(s, t) {
      if |s| >= n {
        ReadUintLocal(n, s, t);
      }
    }
  }

  // ----- Length-prefixed text -----

  function WriteText(n: nat, text: string): string {
    BigEndian(n, |text|) + text
  }

  function ReadText(n: nat, s: string): Parsed<string> {
    var length := ReadUint(n, s);
    if length.Malformed? || |length.rest| < length.value then Malformed
    else Parsed(length.rest[..length.value], length.rest[length.value..])
  }

  function Sized(n: nat): Codec<string> {
    Codec(text => WriteText(n, text), s => ReadText(n, s), text => |text| < Pow256(n))
  }

  lemma SizedLawful(n: nat)
    ensures Lawful(Sized(n))
  {
    forall text, tail ensures Sized(n).RoundTrips(text, tail) {
      if |text| < Pow256(n) {
        ReadUintBack(n, |text|, text + tail);
        Associative(BigEndian(n, |text|), text, tail);
        assert (text + tail)[..|text|] == text;
      }
    }
    forall s ensures Sized(n).CanonicalOn(s) {
      ReadTextCanonical(n, s);
    }
    forall s, t ensures Sized(n).LocalOn(s, t) {
      ReadTextLocal(n, s, t);
    }
  }

  lemma ReadTextCanonical(n: nat, s: string)
    ensures Sized(n).CanonicalOn(s)
  {
    var r := ReadText(n, s);
    if r.Parsed? {
      ValueBound(s[..n]);
      var head, body := s[..n], s[n..];
      assert s == head + body;
      assert body == r.value + r.rest;
      Associative(head, r.value, r.rest);
      if IsBytes(s) {
        HeadCanonical(n, s);
      }
    }
  }

  lemma HeadCanonical(n: nat, s: string)
    requires n <= |s| && IsBytes(s)
    ensures BigEndian(n, Value(s[..n])) == s[..n]
  {
    BigEndianOfValue(s[..n]);
  }

  lemma ReadTextLocal(n: nat, s: string, t: string)
    ensures Sized(n).LocalOn(s, t)
  {
    if ReadText(n, s).Parsed? {
      ReadUintLocal(n, s, t);
      var length, rest := Value(s[..n]), s[n..];
      assert (rest + t)[..length] == rest[..length];
      assert (rest + t)[length..] == rest[length..] + t;
    }
  }

  // ----- Two's-complement timestamps -----

  function ToUnsigned(x: Int64): (u: nat)
    ensures u < 0x1_0000_0000_0000_0000
  {
    if x < 0 then x + 0x1_0000_0000_0000_0000 else x
  }

  function ToSigned(u: nat): Int64
    requires u < 0x1_0000_0000_0000_0000
  {
    if u >= 0x8000_0000_0000_0000 then u - 0x1_0000_0000_0000_0000 else u
  }

  function ReadStamp(s: string): Parsed<Int64> {
    var u := ReadUint(8, s);
    if u.Malformed? then Malformed
    else
      StampRange(s);
      Parsed(ToSigned(u.value), u.rest)
  }

  lemma StampRange(s: string)
    requires |s| >= 8
    ensures Value(s[..8]) < 0x1_0000_0000_0000_0000
  {
    ValueBound(s[..8]);
    Widths();
  }

  function Stamp(): Codec<Int64> {
    Codec((x: Int64) => BigEndian(8, ToUnsigned(x)), s => ReadStamp(s), (x: Int64) => true)
  }

  lemma StampLawful()
    ensures Lawful(Stamp())
  {
    forall x: Int64, tail ensures Stamp().RoundTrips(x, tail) {
      Widths();
      ReadUintBack(8, ToUnsigned(x), tail);
    }
    forall s ensures Stamp().CanonicalOn(s) {
      if |s| >= 8 {
        StampRange(s);
        if IsBytes(s) {
          BigEndianOfValue(s[..8]);
        }
      }
    }
    forall s, t ensures Stamp().LocalOn(s, t) {
      if |s| >= 8 {
        ReadUintLocal(8, s, t);
      }
    }
  }

  /** Eight bytes, big-endian, in two's complement. */
  lemma StampIsTwosComplement(x: Int64)
    ensures |Stamp().write(x)| == 8
    ensures Value(Stamp().write(x)) == if x < 0 then 0x1_0000_0000_0000_0000 + x else x
  {
    Widths();
    ValueOfFitting(8, ToUnsigned(x));
  }

  // ----- One value after another -----

  function ReadPair<A, B>(a: string -> Parsed<A>, b: string -> Parsed<B>, s: string): Parsed<(A, B)> {
    var x := a(s);
    if x.Malformed? then Malformed
    else
      var y := b(x.rest);
      if y.Malformed? then Malformed else Parsed((x.value, y.value), y.rest)
  }

  function Pair<A, B>(a: Codec<A>, b: Codec<B>): Codec<(A, B)> {
    Codec((p: (A, B)) => a.write(p.0) + b.write(p.1),
          s => ReadPair(a.read, b.read, s),
          (p: (A, B)) => a.fits(p.0) && b.fits(p.1))
  }

  lemma BytesBehind(s: string, head: string, rest: string)
    requires IsBytes(s) && s == head + rest
    ensures IsBytes(rest)
  {
    forall i | 0 <= i < |rest| ensures rest[i] as int < 256 {
      assert rest[i] == s[|head| + i];
    }
  }

  lemma PairLawful<A(!new), B(!new)>(a: Codec<A>, b: Codec<B>)
    requires Lawful(a) && Lawful(b)
    ensures Lawful(Pair(a, b))
  {
    var c := Pair(a, b);
    forall p, tail ensures c.RoundTrips(p, tail) {
      Associative(a.write(p.0), b.write(p.1), tail);
      assert a.RoundTrips(p.0, b.write(p.1) + tail) && b.RoundTrips(p.1, tail);
    }
    forall s ensures c.CanonicalOn(s) {
      assert a.CanonicalOn(s);
      var x := a.read(s);
      if x.Parsed? {
        assert b.CanonicalOn(x.rest);
        var y := b.read(x.rest);
        if y.Parsed? && IsBytes(s) {
          BytesBehind(s, a.write(x.value), x.rest);
          Associative(a.write(x.value), b.write(y.value), y.rest);
        }
      }
    }
    forall s, t ensures c.LocalOn(s, t) {
      assert a.LocalOn(s, t);
      if a.read(s).Parsed? {
        assert b.LocalOn(a.read(s).rest, t);
      }
    }
  }

  // ----- The same bytes under another name -----

  /** `d` writes and reads what `c` does, for values of another type. */
  ghost predicate Renames<A(!new), B(!new)>(c: Codec<A>, d: Codec<B>, to: A -> B, from: B -> A) {
    && (forall x :: from(to(x)) == x)
    && (forall y :: to(from(y)) == y)
    && (forall y :: d.write(y) == c.write(from(y)))
    && (forall y :: d.fits(y) == c.fits(from(y)))
    && (forall s :: d.read(s) == Retyped(c.read(s), to))
  }

  function Retyped<A, B>(r: Parsed<A>, to: A -> B): Parsed<B> {
    if r.Malformed? then Malformed else Parsed(to(r.value), r.rest)
  }

  lemma RenamedLawful<A(!new), B(!new)>(c: Codec<A>, d: Codec<B>, to: A -> B, from: B -> A)
    requires Lawful(c) && Renames(c, d, to, from)
    ensures Lawful(d)
  {
    forall y, tail ensures d.RoundTrips(y, tail) {
      assert c.RoundTrips(from(y), tail);
    }
    forall s ensures d.CanonicalOn(s) {
      assert c.CanonicalOn(s);
    }
    forall s, t ensures d.LocalOn(s, t) {
      assert c.LocalOn(s, t);
    }
  }

  // ----- Lists with a u16 count -----

  function WriteAll<T>(write: T -> string, xs: seq<T>): string {
    if xs == [] then "" else write(xs[0]) + WriteAll(write, xs[1..])
  }

  function ReadAll<T>(read: string -> Parsed<T>, n: nat, s: string): Parsed<seq<T>> {
    if n == 0 then Parsed([], s)
    else
      var x := read(s);
      if x.Malformed? then Malformed
      else
        var later := ReadAll(read, n - 1, x.rest);
        if later.Malformed? then Malformed else Parsed([x.value] + later.value, later.rest)
  }

  function WriteList<T>(write: T -> string, xs: seq<T>): string {
    BigEndian(2, |xs|) + WriteAll(write, xs)
  }

  function ReadList<T>(read: string -> Parsed<T>, s: string): Parsed<seq<T>> {
    var count := ReadUint(2, s);
    if count.Malformed? then Malformed else ReadAll(read, count.value, count.rest)
  }

  function List<T>(c: Codec<T>): Codec<seq<T>> {
    Codec((xs: seq<T>) => WriteList(c.write, xs),
          s => ReadList(c.read, s),
          (xs: seq<T>) => |xs| < Pow256(2) && (forall i | 0 <= i < |xs| :: c.fits(xs[i])))
  }

  lemma {:induction false} ReadAllBack<T(!new)>(c: Codec<T>, xs: seq<T>, tail: string)
    requires Lawful(c) && forall i | 0 <= i < |xs| :: c.fits(xs[i])
    ensures ReadAll(c.read, |xs|, WriteAll(c.write, xs) + tail) == Parsed(xs, tail)
  {
    if xs == [] {
      assert WriteAll(c.write, xs) + tail == tail;
    } else {
      var behind := WriteAll(c.write, xs[1..]);
      Associative(c.write(xs[0]), behind, tail);
      assert c.RoundTrips(xs[0], behind + tail);
      ReadAllBack(c, xs[1..], tail);
      assert xs == [xs[0]] + xs[1..];
    }
  }

  lemma {:induction false} ReadAllCanonical<T(!new)>(c: Codec<T>, n: nat, s: string)
    requires Lawful(c)
    ensures var r := ReadAll(c.read, n, s);
            r.Parsed? ==>
              && |r.value| == n && (forall i | 0 <= i < n :: c.fits(r.value[i]))
              && |r.rest| <= |s|
              && (IsBytes(s) ==> s == WriteAll(c.write, r.value) + r.rest)
  {
    var r := ReadAll(c.read, n, s);
    if n > 0 && r.Parsed? {
      var x := c.read(s);
      assert c.CanonicalOn(s);
      ReadAllCanonical(c, n - 1, x.rest);
      var later := ReadAll(c.read, n - 1, x.rest);
      assert r.value[1..] == later.value;
      if IsBytes(s) {
        BytesBehind(s, c.write(x.value), x.rest);
        Associative(c.write(x.value), WriteAll(c.write, later.value), later.rest);
      }
    }
  }

  lemma {:induction false} ReadAllLocal<T(!new)>(c: Codec<T>, n: nat, s: string, t: string)
    requires Lawful(c)
    ensures var r := ReadAll(c.read, n, s);
            r.Parsed? ==> ReadAll(c.read, n, s + t) == Parsed(r.value, r.rest + t)
  {
    if n > 0 && ReadAll(c.read, n, s).Parsed? {
      assert c.LocalOn(s, t);
      ReadAllLocal(c, n - 1, c.read(s).rest, t);
    }
  }

  lemma ListLawful<T(!new)>(c: Codec<T>)
    requires Lawful(c)
    ensures Lawful(List(c))
  {
    var d := List(c);
    forall xs, tail ensures d.RoundTrips(xs, tail) {
      if d.fits(xs) {
        var behind := WriteAll(c.write, xs);
        Associative(BigEndian(2, |xs|), behind, tail);
        ReadUintBack(2, |xs|, behind + tail);
        ReadAllBack(c, xs, tail);
      }
    }
    forall s ensures d.CanonicalOn(s) {
      ListCanonical(c, s);
    }
    forall s, t ensures d.LocalOn(s, t) {
      if |s| >= 2 {
        ReadUintLocal(2, s, t);
        ReadAllLocal(c, Value(s[..2]), s[2..], t);
      }
    }
  }

  lemma ListCanonical<T(!new)>(c: Codec<T>, s: string)
    requires Lawful(c)
    ensures List(c).CanonicalOn(s)
  {
    if |s| >= 2 {
      ValueBound(s[..2]);
      ReadAllCanonical(c, Value(s[..2]), s[2..]);
      var r := ReadList(c.read, s);
      if IsBytes(s) && r.Parsed? {
        BigEndianOfValue(s[..2]);
        assert s == s[..2] + s[2..];
        Associative(s[..2], WriteAll(c.write, r.value), r.rest);
      }
    }
  }
}
