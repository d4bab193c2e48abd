/** Where the constants of FIPS 180-4 come from, and what its functions do to single bits: section 4.2.2
    takes the round constants from the cube roots of the first 64 primes, section 5.3.3 the initial hash
    value from the square roots of the first eight. */
module Constants {
  import opened Fips180

  // ----- The first 64 primes -----

  predicate Prime(n: nat) {
    n >= 2 && forall d | 2 <= d < n :: n % d != 0
  }

  const PRIMES_0: seq<nat> := [2, 3, 5, 7, 11, 13, 17, 19]
  const PRIMES_1: seq<nat> := [23, 29, 31, 37, 41, 43, 47, 53]
  const PRIMES_2: seq<nat> := [59, 61, 67, 71, 73, 79, 83, 89]
  const PRIMES_3: seq<nat> := [97, 101, 103, 107, 109, 113, 127, 131]
  const PRIMES_4: seq<nat> := [137, 139, 149, 151, 157, 163, 167, 173]
  const PRIMES_5: seq<nat> := [179, 181, 191, 193, 197, 199, 211, 223]
  const PRIMES_6: seq<nat> := [227, 229, 233, 239, 241, 251, 257, 263]
  const PRIMES_7: seq<nat> := [269, 271, 277, 281, 283, 293, 307, 311]

  const PRIMES: seq<nat> := PRIMES_0 + PRIMES_1 + PRIMES_2 + PRIMES_3 + PRIMES_4 + PRIMES_5 + PRIMES_6 + PRIMES_7

  /** A larger multiple of one of the primes below 18. */
  predicate Divisible(n: nat) {
    || (n > 2 && n % 2 == 0) || (n > 3 && n % 3 == 0) || (n > 5 && n % 5 == 0) || (n > 7 && n % 7 == 0)
    || (n > 11 && n % 11 == 0) || (n > 13 && n % 13 == 0) || (n > 17 && n % 17 == 0)
  }

  lemma Even(n: nat, k: nat)
    requires n == 2 * k
    ensures n % 2 == 0
  {
  }

  lemma Third(n: nat, k: nat)
    requires n == 3 * k
    ensures n % 3 == 0
  {
  }

  lemma PrimeMultiples(n: nat, q: nat)
    ensures n == 5 * q ==> n % 5 == 0
    ensures n == 7 * q ==> n % 7 == 0
    ensures n == 11 * q ==> n % 11 == 0
    ensures n == 13 * q ==> n % 13 == 0
    ensures n == 17 * q ==> n % 17 == 0
  {
  }

  lemma TinyFactor(n: nat, e: nat, q: nat)
    requires 2 <= e <= 8 && e < n && n == q * e
    ensures Divisible(n)
  {
    match e
    case 2 => Even(n, q);
    case 3 => Third(n, q);
    case 4 => Even(n, 2 * q);
    case 5 => PrimeMultiples(n, q);
    case 6 => Even(n, 3 * q);
    case 7 => PrimeMultiples(n, q);
    case _ => Even(n, 4 * q);
  }

  lemma SmallFactor(n: nat, e: nat, q: nat)
    requires 2 <= e <= 17 && e < n && n == q * e
    ensures Divisible(n)
  {
    if e <= 8 {
      TinyFactor(n, e, q);
    } else {
      OtherFactor(n, e, q);
    }
  }

  lemma OtherFactor(n: nat, e: nat, q: nat)
    requires 9 <= e <= 17 && e < n && n == q * e
    ensures Divisible(n)
  {
    match e
    case 9 => Third(n, 3 * q);
    case 10 => Even(n, 5 * q);
    case 11 => PrimeMultiples(n, q);
    case 12 => Even(n, 6 * q);
    case 13 => PrimeMultiples(n, q);
    case 14 => Even(n, 7 * q);
    case 15 => Third(n, 5 * q);
    case 16 => Even(n, 8 * q);
    case _ => PrimeMultiples(n, q);
  }

  lemma Products(d: nat, q: nat)
    requires d >= 18 && q >= 18
    ensures d * q >= 324
  {
    assert d * q >= 18 * q;
  }

  lemma OneFactorIsSmall(n: nat, d: nat, q: nat)
    requires 2 <= d < n < 324 && n == d * q
    ensures 2 <= q < n && (d < 18 || q < 18)
  {
    if q >= 2 {
      assert d * q >= 2 * q;
    }
    if d >= 18 && q >= 18 {
      Products(d, q);
    }
  }

  /** Below 18 * 18 that is the only way not to be prime. */
  lemma PrimeIff(n: nat)
    requires 2 <= n < 324
    ensures Prime(n) <==> !Divisible(n)
  {
    if !Prime(n) {
      var d :| 2 <= d < n && n % d == 0;
      var q := n / d;
      assert n == d * q;
      OneFactorIsSmall(n, d, q);
      if d < 18 {
        SmallFactor(n, d, q);
      } else {
        SmallFactor(n, q, d);
      }
    }
  }

  /** What is left without the multiples of 2 and 3. */
  lemma Wheel(n: nat)
    ensures n % 2 == 0 || n % 3 == 0 || n == 6 * (n / 6) + 1 || n == 6 * (n / 6) + 5
  {
    var k, r := n / 6, n % 6;
    assert n == 6 * k + r;
    match r
    case 0 => Even(n, 3 * k);
    case 2 => Even(n, 3 * k + 1);
    case 3 => Third(n, 2 * k + 1);
    case 4 => Even(n, 3 * k + 2);
    case _ =>
  }

  lemma Sieve0(n: nat)
    requires 1 < n <= 19
    ensures !Divisible(n) <==> n in PRIMES_0
  {
  }

  lemma Sieve1(n: nat, k: nat)
    requires 19 < n <= 53 && (n == 6 * k + 1 || n == 6 * k + 5)
    ensures !Divisible(n) <==> n in PRIMES_1
  {
    match k
    case 3 =>
    case 4 =>
    case 5 =>
    case 6 =>
    case 7 =>
    case _ =>
  }

  lemma Sieve2(n: nat, k: nat)
    requires 53 < n <= 89 && (n == 6 * k + 1 || n == 6 * k + 5)
    ensures !Divisible(n) <==> n in PRIMES_2
  {
    match k
    case 8 =>
    case 9 =>
    case 10 =>
    case 11 =>
    case 12 =>
    case 13 =>
    case _ =>
  }

  lemma Sieve3(n: nat, k: nat)
    requires 89 < n <= 131 && (n == 6 * k + 1 || n == 6 * k + 5)
    ensures !Divisible(n) <==> n in PRIMES_3
  {
    match k
    case 14 =>
    case 15 =>
    case 16 =>
    case 17 =>
    case 18 =>
    case 19 =>
    case 20 =>
    case _ =>
  }

  lemma Sieve4(n: nat, k: nat)
    requires 131 < n <= 173 && (n == 6 * k + 1 || n == 6 * k + 5)
    ensures !Divisible(n) <==> n in PRIMES_4
  {
    match k
    case 21 =>
    case 22 =>
    case 23 =>
    case 24 =>
    case 25 =>
    case 26 =>
    case 27 =>
    case _ =>
  }

  lemma Sieve5(n: nat, k: nat)
    requires 173 < n <= 223 && (n == 6 * k + 1 || n == 6 * k + 5)
    ensures !Divisible(n) <==> n in PRIMES_5
  {
    match k
    case 28 =>
    case 29 =>
    case 30 =>
    case 31 =>
    case 32 =>
    case 33 =>
    case 34 =>
    case 35 =>
    case 36 =>
    case _ =>
  }

  lemma Sieve6(n: nat, k: nat)
    requires 223 < n <= 263 && (n == 6 * k + 1 || n == 6 * k + 5)
    ensures !Divisible(n) <==> n in PRIMES_6
  {
    match k
    case 37 =>
    case 38 =>
    case 39 =>
    case 40 =>
    case 41 =>
    case 42 =>
    case _ =>
  }

  lemma Sieve7(n: nat, k: nat)
    requires 263 < n <= 311 && (n == 6 * k + 1 || n == 6 * k + 5)
    ensures !Divisible(n) <==> n in PRIMES_7
  {
    match k
    case 43 =>
    case 44 =>
    case 45 =>
    case 46 =>
    case 47 =>
    case 48 =>
    case 49 =>
    case 50 =>
    case _ =>
  }

  ghost predicate Ascending(row: seq<nat>) {
    forall i, j | 0 <= i < j < |row| :: row[i] < row[j]
  }

  /** A row lies between two bounds, and has no multiples of 2 and 3 but these. */
  ghost predicate RowBetween(row: seq<nat>, low: nat, high: nat) {
    && Ascending(row)
    && forall i | 0 <= i < |row| :: low < row[i] <= high && (row[i] <= 3 || (row[i] % 2 != 0 && row[i] % 3 != 0))
  }

  lemma Row0()
    ensures |PRIMES_0| == 8 && RowBetween(PRIMES_0, 1, 19)
  {
  }

  lemma Row1()
    ensures |PRIMES_1| == 8 && RowBetween(PRIMES_1, 19, 53)
  {
  }

  lemma Row2()
    ensures |PRIMES_2| == 8 && RowBetween(PRIMES_2, 53, 89)
  {
  }

  lemma Row3()
    ensures |PRIMES_3| == 8 && RowBetween(PRIMES_3, 89, 131)
  {
  }

  lemma Row4()
    ensures |PRIMES_4| == 8 && RowBetween(PRIMES_4, 131, 173)
  {
  }

  lemma Row5()
    ensures |PRIMES_5| == 8 && RowBetween(PRIMES_5, 173, 223)
  {
  }

  lemma Row6()
    ensures |PRIMES_6| == 8 && RowBetween(PRIMES_6, 223, 263)
  {
  }

  lemma Row7()
    ensures |PRIMES_7| == 8 && RowBetween(PRIMES_7, 263, 311)
  {
  }

  lemma RowsJoin(a: seq<nat>, b: seq<nat>, low: nat, middle: nat, high: nat)
    requires RowBetween(a, low, middle) && RowBetween(b, middle, high) && low <= middle <= high
    ensures RowBetween(a + b, low, high)
  {
  }

  lemma PrimesAscend()
    ensures |PRIMES| == 64 && RowBetween(PRIMES, 1, 311)
  {
    Row0();
    Row1();
    RowsJoin(PRIMES_0, PRIMES_1, 1, 19, 53);
    Row2();
    RowsJoin(PRIMES_0 + PRIMES_1, PRIMES_2, 1, 53, 89);
    Row3();
    RowsJoin(PRIMES_0 + PRIMES_1 + PRIMES_2, PRIMES_3, 1, 89, 131);
    Row4();
    RowsJoin(PRIMES_0 + PRIMES_1 + PRIMES_2 + PRIMES_3, PRIMES_4, 1, 131, 173);
    Row5();
    RowsJoin(PRIMES_0 + PRIMES_1 + PRIMES_2 + PRIMES_3 + PRIMES_4, PRIMES_5, 1, 173, 223);
    Row6();
    RowsJoin(PRIMES_0 + PRIMES_1 + PRIMES_2 + PRIMES_3 + PRIMES_4 + PRIMES_5, PRIMES_6, 1, 223, 263);
    Row7();
    RowsJoin(PRIMES_0 + PRIMES_1 + PRIMES_2 + PRIMES_3 + PRIMES_4 + PRIMES_5 + PRIMES_6, PRIMES_7, 1, 263, 311);
  }

  lemma ListedInRow(n: nat)
    ensures n in PRIMES <==>
            || n in PRIMES_0 || n in PRIMES_1 || n in PRIMES_2 || n in PRIMES_3
            || n in PRIMES_4 || n in PRIMES_5 || n in PRIMES_6 || n in PRIMES_7
  {
  }

  lemma NotInRow(n: nat, row: seq<nat>, low: nat, high: nat)
    requires RowBetween(row, low, high) && (n <= low || n > high || (n > 3 && (n % 2 == 0 || n % 3 == 0)))
    ensures n !in row
  {
  }

  lemma NotElsewhere(n: nat)
    ensures n > 19 ==> n !in PRIMES_0
    ensures n <= 19 || n > 53 ==> n !in PRIMES_1
    ensures n <= 53 || n > 89 ==> n !in PRIMES_2
    ensures n <= 89 || n > 131 ==> n !in PRIMES_3
    ensures n <= 131 || n > 173 ==> n !in PRIMES_4
    ensures n <= 173 || n > 223 ==> n !in PRIMES_5
    ensures n <= 223 || n > 263 ==> n !in PRIMES_6
    ensures n <= 263 || n > 311 ==> n !in PRIMES_7
  {
    Row0();
    if n <= 1 || n > 19 {
      NotInRow(n, PRIMES_0, 1, 19);
    }
    Row1();
    if n <= 19 || n > 53 {
      NotInRow(n, PRIMES_1, 19, 53);
    }
    Row2();
    if n <= 53 || n > 89 {
      NotInRow(n, PRIMES_2, 53, 89);
    }
    Row3();
    if n <= 89 || n > 131 {
      NotInRow(n, PRIMES_3, 89, 131);
    }
    Row4();
    if n <= 131 || n > 173 {
      NotInRow(n, PRIMES_4, 131, 173);
    }
    Row5();
    if n <= 173 || n > 223 {
      NotInRow(n, PRIMES_5, 173, 223);
    }
    Row6();
    if n <= 223 || n > 263 {
      NotInRow(n, PRIMES_6, 223, 263);
    }
    Row7();
    if n <= 263 || n > 311 {
      NotInRow(n, PRIMES_7, 263, 311);
    }
  }

  lemma Sieve(n: nat)
    requires 2 <= n <= 311
    ensures !Divisible(n) <==> n in PRIMES
  {
    var k := n / 6;
    Wheel(n);
    ListedInRow(n);
    NotElsewhere(n);
    if n <= 19 {
      Sieve0(n);
    } else if n % 2 == 0 || n % 3 == 0 {
      PrimesAscend();
      NotInRow(n, PRIMES, 1, 311);
    } else if n <= 53 {
      Sieve1(n, k);
    } else if n <= 89 {
      Sieve2(n, k);
    } else if n <= 131 {
      Sieve3(n, k);
    } else if n <= 173 {
      Sieve4(n, k);
    } else if n <= 223 {
      Sieve5(n, k);
    } else if n <= 263 {
      Sieve6(n, k);
    } else {
      Sieve7(n, k);
    }
  }

  /** The list is in order, and has exactly the primes up to 311. */
  lemma PrimesAreAll()
    ensures |PRIMES| == 64 && forall i, j | 0 <= i < j < 64 :: PRIMES[i] < PRIMES[j]
    ensures forall n: nat :: n in PRIMES <==> n <= 311 && Prime(n)
  {
    PrimesAscend();
    forall n: nat ensures n in PRIMES <==> n <= 311 && Prime(n) {
      ListedIffPrime(n);
    }
  }

  lemma ListedIffPrime(n: nat)
    ensures n in PRIMES <==> n <= 311 && Prime(n)
  {
    PrimesAscend();
    if 2 <= n <= 311 {
      PrimeIff(n);
      Sieve(n);
    }
  }

  // ----- Roots -----

  const TWO_32 := 0x1_0000_0000

  function Cube(x: nat): nat {
    x * x * x
  }

  function Square(x: nat): nat {
    x * x
  }

  /** `r` and the fraction `k` with 32 bits: the cube root of `p`, cut off. */
  predicate CubeRootAt(r: nat, k: nat, p: nat) {
    Cube(r * TWO_32 + k) <= p * Cube(TWO_32) < Cube(r * TWO_32 + k + 1)
  }

  predicate SquareRootAt(r: nat, h: nat, p: nat) {
    Square(r * TWO_32 + h) <= p * Square(TWO_32) < Square(r * TWO_32 + h + 1)
  }

  /** `k` holds the first 32 bits of the fractional part of the cube root of `p`. */
  ghost predicate CubeRootOf(k: nat, p: nat) {
    k < TWO_32 && exists r: nat :: CubeRootAt(r, k, p)
  }

  ghost predicate SquareRootOf(h: nat, p: nat) {
    h < TWO_32 && exists r: nat :: SquareRootAt(r, h, p)
  }

  // The round constants as numbers.

  const N_0: seq<nat> := [0x428a2f98, 0x71374491, 0xb5c0fbcf, 0xe9b5dba5, 0x3956c25b, 0x59f111f1, 0x923f82a4, 0xab1c5ed5]
  const N_1: seq<nat> := [0xd807aa98, 0x12835b01, 0x243185be, 0x550c7dc3, 0x72be5d74, 0x80deb1fe, 0x9bdc06a7, 0xc19bf174]
  const N_2: seq<nat> := [0xe49b69c1, 0xefbe4786, 0x0fc19dc6, 0x240ca1cc, 0x2de92c6f, 0x4a7484aa, 0x5cb0a9dc, 0x76f988da]
  const N_3: seq<nat> := [0x983e5152, 0xa831c66d, 0xb00327c8, 0xbf597fc7, 0xc6e00bf3, 0xd5a79147, 0x06ca6351, 0x14292967]
  const N_4: seq<nat> := [0x27b70a85, 0x2e1b2138, 0x4d2c6dfc, 0x53380d13, 0x650a7354, 0x766a0abb, 0x81c2c92e, 0x92722c85]
  const N_5: seq<nat> := [0xa2bfe8a1, 0xa81a664b, 0xc24b8b70, 0xc76c51a3, 0xd192e819, 0xd6990624, 0xf40e3585, 0x106aa070]
  const N_6: seq<nat> := [0x19a4c116, 0x1e376c08, 0x2748774c, 0x34b0bcb5, 0x391c0cb3, 0x4ed8aa4a, 0x5b9cca4f, 0x682e6ff3]
  const N_7: seq<nat> := [0x748f82ee, 0x78a5636f, 0x84c87814, 0x8cc70208, 0x90befffa, 0xa4506ceb, 0xbef9a3f7, 0xc67178f2]

  lemma Numbers0()
    ensures forall c | 0 <= c < 8 :: K_0[c] as nat == N_0[c]
  {
  }

  lemma CubeRoots0()
    ensures forall c | 0 <= c < 8 :: CubeRootOf(N_0[c], PRIMES_0[c])
  {
    assert CubeRootAt(1, N_0[0], PRIMES_0[0]);
    assert CubeRootAt(1, N_0[1], PRIMES_0[1]);
    assert CubeRootAt(1, N_0[2], PRIMES_0[2]);
    assert CubeRootAt(1, N_0[3], PRIMES_0[3]);
    assert CubeRootAt(2, N_0[4], PRIMES_0[4]);
    assert CubeRootAt(2, N_0[5], PRIMES_0[5]);
    assert CubeRootAt(2, N_0[6], PRIMES_0[6]);
    assert CubeRootAt(2, N_0[7], PRIMES_0[7]);
  }

  lemma Numbers1()
    ensures forall c | 0 <= c < 8 :: K_1[c] as nat == N_1[c]
  {
  }

  lemma CubeRoots1()
    ensures forall c | 0 <= c < 8 :: CubeRootOf(N_1[c], PRIMES_1[c])
  {
    assert CubeRootAt(2, N_1[0], PRIMES_1[0]);
    assert CubeRootAt(3, N_1[1], PRIMES_1[1]);
    assert CubeRootAt(3, N_1[2], PRIMES_1[2]);
    assert CubeRootAt(3, N_1[3], PRIMES_1[3]);
    assert CubeRootAt(3, N_1[4], PRIMES_1[4]);
    assert CubeRootAt(3, N_1[5], PRIMES_1[5]);
    assert CubeRootAt(3, N_1[6], PRIMES_1[6]);
    assert CubeRootAt(3, N_1[7], PRIMES_1[7]);
  }

  lemma Numbers2()
    ensures forall c | 0 <= c < 8 :: K_2[c] as nat == N_2[c]
  {
  }

  lemma CubeRoots2()
    ensures forall c | 0 <= c < 8 :: CubeRootOf(N_2[c], PRIMES_2[c])
  {
    assert CubeRootAt(3, N_2[0], PRIMES_2[0]);
    assert CubeRootAt(3, N_2[1], PRIMES_2[1]);
    assert CubeRootAt(4, N_2[2], PRIMES_2[2]);
    assert CubeRootAt(4, N_2[3], PRIMES_2[3]);
    assert CubeRootAt(4, N_2[4], PRIMES_2[4]);
    assert CubeRootAt(4, N_2[5], PRIMES_2[5]);
    assert CubeRootAt(4, N_2[6], PRIMES_2[6]);
    assert CubeRootAt(4, N_2[7], PRIMES_2[7]);
  }

  lemma Numbers3()
    ensures forall c | 0 <= c < 8 :: K_3[c] as nat == N_3[c]
  {
  }

  lemma CubeRoots3()
    ensures forall c | 0 <= c < 8 :: CubeRootOf(N_3[c], PRIMES_3[c])
  {
    assert CubeRootAt(4, N_3[0], PRIMES_3[0]);
    assert CubeRootAt(4, N_3[1], PRIMES_3[1]);
    assert CubeRootAt(4, N_3[2], PRIMES_3[2]);
    assert CubeRootAt(4, N_3[3], PRIMES_3[3]);
    assert CubeRootAt(4, N_3[4], PRIMES_3[4]);
    assert CubeRootAt(4, N_3[5], PRIMES_3[5]);
    assert CubeRootAt(5, N_3[6], PRIMES_3[6]);
    assert CubeRootAt(5, N_3[7], PRIMES_3[7]);
  }

  lemma Numbers4()
    ensures forall c | 0 <= c < 8 :: K_4[c] as nat == N_4[c]
  {
  }

  lemma CubeRoots4()
    ensures forall c | 0 <= c < 8 :: CubeRootOf(N_4[c], PRIMES_4[c])
  {
    assert CubeRootAt(5, N_4[0], PRIMES_4[0]);
    assert CubeRootAt(5, N_4[1], PRIMES_4[1]);
    assert CubeRootAt(5, N_4[2], PRIMES_4[2]);
    assert CubeRootAt(5, N_4[3], PRIMES_4[3]);
    assert CubeRootAt(5, N_4[4], PRIMES_4[4]);
    assert CubeRootAt(5, N_4[5], PRIMES_4[5]);
    assert CubeRootAt(5, N_4[6], PRIMES_4[6]);
    assert CubeRootAt(5, N_4[7], PRIMES_4[7]);
  }

  lemma Numbers5()
    ensures forall c | 0 <= c < 8 :: K_5[c] as nat == N_5[c]
  {
  }

  lemma CubeRoots5()
    ensures forall c | 0 <= c < 8 :: CubeRootOf(N_5[c], PRIMES_5[c])
  {
    assert CubeRootAt(5, N_5[0], PRIMES_5[0]);
    assert CubeRootAt(5, N_5[1], PRIMES_5[1]);
    assert CubeRootAt(5, N_5[2], PRIMES_5[2]);
    assert CubeRootAt(5, N_5[3], PRIMES_5[3]);
    assert CubeRootAt(5, N_5[4], PRIMES_5[4]);
    assert CubeRootAt(5, N_5[5], PRIMES_5[5]);
    assert CubeRootAt(5, N_5[6], PRIMES_5[6]);
    assert CubeRootAt(6, N_5[7], PRIMES_5[7]);
  }

  lemma Numbers6()
    ensures forall c | 0 <= c < 8 :: K_6[c] as nat == N_6[c]
  {
  }

  lemma CubeRoots6()
    ensures forall c | 0 <= c < 8 :: CubeRootOf(N_6[c], PRIMES_6[c])
  {
    assert CubeRootAt(6, N_6[0], PRIMES_6[0]);
    assert CubeRootAt(6, N_6[1], PRIMES_6[1]);
    assert CubeRootAt(6, N_6[2], PRIMES_6[2]);
    assert CubeRootAt(6, N_6[3], PRIMES_6[3]);
    assert CubeRootAt(6, N_6[4], PRIMES_6[4]);
    assert CubeRootAt(6, N_6[5], PRIMES_6[5]);
    assert CubeRootAt(6, N_6[6], PRIMES_6[6]);
    assert CubeRootAt(6, N_6[7], PRIMES_6[7]);
  }

  lemma Numbers7()
    ensures forall c | 0 <= c < 8 :: K_7[c] as nat == N_7[c]
  {
  }

  lemma CubeRoots7()
    ensures forall c | 0 <= c < 8 :: CubeRootOf(N_7[c], PRIMES_7[c])
  {
    assert CubeRootAt(6, N_7[0], PRIMES_7[0]);
    assert CubeRootAt(6, N_7[1], PRIMES_7[1]);
    assert CubeRootAt(6, N_7[2], PRIMES_7[2]);
    assert CubeRootAt(6, N_7[3], PRIMES_7[3]);
    assert CubeRootAt(6, N_7[4], PRIMES_7[4]);
    assert CubeRootAt(6, N_7[5], PRIMES_7[5]);
    assert CubeRootAt(6, N_7[6], PRIMES_7[6]);
    assert CubeRootAt(6, N_7[7], PRIMES_7[7]);
  }

  /** Round constant `t` is made of the cube root of the prime in place `t`. */
  lemma RoundConstants(t: nat)
    requires t < 64
    ensures |K| == |PRIMES| == 64 && CubeRootOf(K[t] as nat, PRIMES[t])
  {
    if t < 8 {
      CubeRoots0();
      Numbers0();
      assert K[t] == K_0[t - 0] && PRIMES[t] == PRIMES_0[t - 0];
    } else if t < 16 {
      CubeRoots1();
      Numbers1();
      assert K[t] == K_1[t - 8] && PRIMES[t] == PRIMES_1[t - 8];
    } else if t < 24 {
      CubeRoots2();
      Numbers2();
      assert K[t] == K_2[t - 16] && PRIMES[t] == PRIMES_2[t - 16];
    } else if t < 32 {
      CubeRoots3();
      Numbers3();
      assert K[t] == K_3[t - 24] && PRIMES[t] == PRIMES_3[t - 24];
    } else if t < 40 {
      CubeRoots4();
      Numbers4();
      assert K[t] == K_4[t - 32] && PRIMES[t] == PRIMES_4[t - 32];
    } else if t < 48 {
      CubeRoots5();
      Numbers5();
      assert K[t] == K_5[t - 40] && PRIMES[t] == PRIMES_5[t - 40];
    } else if t < 56 {
      CubeRoots6();
      Numbers6();
      assert K[t] == K_6[t - 48] && PRIMES[t] == PRIMES_6[t - 48];
    } else {
      CubeRoots7();
      Numbers7();
      assert K[t] == K_7[t - 56] && PRIMES[t] == PRIMES_7[t - 56];
    }
  }

  const H_0: seq<nat> := [0x6a09e667, 0xbb67ae85, 0x3c6ef372, 0xa54ff53a, 0x510e527f, 0x9b05688c, 0x1f83d9ab, 0x5be0cd19]

  lemma SquareRoots()
    ensures forall c | 0 <= c < 8 :: SquareRootOf(H_0[c], PRIMES_0[c])
  {
    assert SquareRootAt(1, H_0[0], PRIMES_0[0]);
    assert SquareRootAt(1, H_0[1], PRIMES_0[1]);
    assert SquareRootAt(2, H_0[2], PRIMES_0[2]);
    assert SquareRootAt(2, H_0[3], PRIMES_0[3]);
    assert SquareRootAt(3, H_0[4], PRIMES_0[4]);
    assert SquareRootAt(3, H_0[5], PRIMES_0[5]);
    assert SquareRootAt(4, H_0[6], PRIMES_0[6]);
    assert SquareRootAt(4, H_0[7], PRIMES_0[7]);
  }

  lemma InitialNumbers()
    ensures var v := InitialHash();
            [v.a as nat, v.b as nat, v.c as nat, v.d as nat, v.e as nat, v.f as nat, v.g as nat, v.h as nat] == H_0
  {
  }

  /** The initial hash value is made of the square roots of the first eight primes. */
  lemma InitialValue()
    ensures var v := InitialHash();
            var words := [v.a as nat, v.b as nat, v.c as nat, v.d as nat, v.e as nat, v.f as nat, v.g as nat, v.h as nat];
            forall c | 0 <= c < 8 :: SquareRootOf(words[c], PRIMES[c])
  {
    SquareRoots();
    InitialNumbers();
    assert forall c | 0 <= c < 8 :: PRIMES[c] == PRIMES_0[c];
  }

  // ----- Choice and majority -----

  /** `Ch` takes each bit from `y` or from `z`, as that bit of `x` says. */
  lemma ChChooses(x: bv32, y: bv32, z: bv32)
    ensures Ch(x, y, z) & x == y & x
    ensures Ch(x, y, z) & !x == z & !x
  {
  }

  /** Each bit of `Maj` is one that two of its arguments have. */
  lemma MajAgrees(x: bv32, y: bv32, z: bv32)
    ensures Maj(x, x, z) == x && Maj(x, z, x) == x && Maj(z, x, x) == x
    ensures Maj(x, y, z) & !(x ^ y) == x & !(x ^ y)
  {
  }

  // ----- The sigmas, bit by bit -----

  /** `m` marks at most one place of a word: `1 << i` marks place `i`, its rotation to the left by `n` place
      `(i + n) % 32`, and its shift to the left by `n` place `i + n`, if there is one. */
  predicate SingleBit(m: bv32) {
    m & (m - 1) == 0
  }

  predicate Has(x: bv32, m: bv32) {
    x & m != 0
  }

  predicate Odd(a: bool, b: bool, c: bool) {
    a != (b != c)
  }

  lemma XorBits(x: bv32, y: bv32, z: bv32, m: bv32)
    ensures m & (m - 1) == 0 ==> (((x ^ y ^ z) & m != 0) == ((x & m != 0) != ((y & m != 0) != (z & m != 0))))
  {
  }

  lemma XorHas(x: bv32, y: bv32, z: bv32, s: bv32, m: bv32)
    requires s == Xor(x, y, z) && SingleBit(m)
    ensures Has(s, m) == Odd(Has(x, m), Has(y, m), Has(z, m))
  {
    XorBits(x, y, z, m);
  }

  lemma Turned2(x: bv32, m: bv32)
    ensures Has(Rotr(x, 2), m) == Has(x, m.RotateLeft(2))
  {
  }

  lemma Turned6(x: bv32, m: bv32)
    ensures Has(Rotr(x, 6), m) == Has(x, m.RotateLeft(6))
  {
  }

  lemma Turned7(x: bv32, m: bv32)
    ensures Has(Rotr(x, 7), m) == Has(x, m.RotateLeft(7))
  {
  }

  lemma Turned11(x: bv32, m: bv32)
    ensures Has(Rotr(x, 11), m) == Has(x, m.RotateLeft(11))
  {
  }

  lemma Turned13(x: bv32, m: bv32)
    ensures Has(Rotr(x, 13), m) == Has(x, m.RotateLeft(13))
  {
  }

  lemma Turned17(x: bv32, m: bv32)
    ensures Has(Rotr(x, 17), m) == Has(x, m.RotateLeft(17))
  {
  }

  lemma Turned18(x: bv32, m: bv32)
    ensures Has(Rotr(x, 18), m) == Has(x, m.RotateLeft(18))
  {
  }

  lemma Turned19(x: bv32, m: bv32)
    ensures Has(Rotr(x, 19), m) == Has(x, m.RotateLeft(19))
  {
  }

  lemma Turned22(x: bv32, m: bv32)
    ensures Has(Rotr(x, 22), m) == Has(x, m.RotateLeft(22))
  {
  }

  lemma Turned25(x: bv32, m: bv32)
    ensures Has(Rotr(x, 25), m) == Has(x, m.RotateLeft(25))
  {
  }

  lemma Shifted3(x: bv32, m: bv32)
    ensures Has(x >> 3, m) == Has(x, m << 3)
  {
  }

  lemma Shifted10(x: bv32, m: bv32)
    ensures Has(x >> 10, m) == Has(x, m << 10)
  {
  }

  lemma BigSigma0Combined(x: bv32, m: bv32)
    requires Has(BigSigma0(x), m) == Odd(Has(Rotr(x, 2), m), Has(Rotr(x, 13), m), Has(Rotr(x, 22), m))
    ensures Has(BigSigma0(x), m) == Odd(Has(x, m.RotateLeft(2)), Has(x, m.RotateLeft(13)), Has(x, m.RotateLeft(22)))
  {
    Turned2(x, m);
    Turned13(x, m);
    Turned22(x, m);
  }

  lemma BigSigma0Bits(x: bv32, m: bv32)
    requires SingleBit(m)
    ensures Has(BigSigma0(x), m) == Odd(Has(x, m.RotateLeft(2)), Has(x, m.RotateLeft(13)), Has(x, m.RotateLeft(22)))
  {
    XorHas(Rotr(x, 2), Rotr(x, 13), Rotr(x, 22), BigSigma0(x), m);
    BigSigma0Combined(x, m);
  }

  lemma BigSigma1Combined(x: bv32, m: bv32)
    requires Has(BigSigma1(x), m) == Odd(Has(Rotr(x, 6), m), Has(Rotr(x, 11), m), Has(Rotr(x, 25), m))
    ensures Has(BigSigma1(x), m) == Odd(Has(x, m.RotateLeft(6)), Has(x, m.RotateLeft(11)), Has(x, m.RotateLeft(25)))
  {
    Turned6(x, m);
    Turned11(x, m);
    Turned25(x, m);
  }

  lemma BigSigma1Bits(x: bv32, m: bv32)
    requires SingleBit(m)
    ensures Has(BigSigma1(x), m) == Odd(Has(x, m.RotateLeft(6)), Has(x, m.RotateLeft(11)), Has(x, m.RotateLeft(25)))
  {
    XorHas(Rotr(x, 6), Rotr(x, 11), Rotr(x, 25), BigSigma1(x), m);
    BigSigma1Combined(x, m);
  }

  lemma SmallSigma0Combined(x: bv32, m: bv32)
    requires Has(SmallSigma0(x), m) == Odd(Has(Rotr(x, 7), m), Has(Rotr(x, 18), m), Has(x >> 3, m))
    ensures Has(SmallSigma0(x), m) == Odd(Has(x, m.RotateLeft(7)), Has(x, m.RotateLeft(18)), Has(x, m << 3))
  {
    Turned7(x, m);
    Turned18(x, m);
    Shifted3(x, m);
  }

  lemma SmallSigma0Bits(x: bv32, m: bv32)
    requires SingleBit(m)
    ensures Has(SmallSigma0(x), m) == Odd(Has(x, m.RotateLeft(7)), Has(x, m.RotateLeft(18)), Has(x, m << 3))
  {
    XorHas(Rotr(x, 7), Rotr(x, 18), x >> 3, SmallSigma0(x), m);
    SmallSigma0Combined(x, m);
  }

  lemma SmallSigma1Combined(x: bv32, m: bv32)
    requires Has(SmallSigma1(x), m) == Odd(Has(Rotr(x, 17), m), Has(Rotr(x, 19), m), Has(x >> 10, m))
    ensures Has(SmallSigma1(x), m) == Odd(Has(x, m.RotateLeft(17)), Has(x, m.RotateLeft(19)), Has(x, m << 10))
  {
    Turned17(x, m);
    Turned19(x, m);
    Shifted10(x, m);
  }

  lemma SmallSigma1Bits(x: bv32, m: bv32)
    requires SingleBit(m)
    ensures Has(SmallSigma1(x), m) == Odd(Has(x, m.RotateLeft(17)), Has(x, m.RotateLeft(19)), Has(x, m << 10))
  {
    XorHas(Rotr(x, 17), Rotr(x, 19), x >> 10, SmallSigma1(x), m);
    SmallSigma1Combined(x, m);
  }
}
