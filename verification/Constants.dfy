/** The constants of SHA-256 and where they come from: fractional parts of the
    roots of the first primes, as sections 4.2.2 and 5.3.3 of FIPS 180-4 say. */
module Constants {
  import opened Arithmetic

  type Word = w: nat | w < 0x1_0000_0000

  /** Eight words, or eight primes, in a row. */
  type WordRow = r: seq<Word> | |r| == 8 witness [0, 0, 0, 0, 0, 0, 0, 0]
  type Row = r: seq<nat> | |r| == 8 witness [0, 0, 0, 0, 0, 0, 0, 0]

  /** Eight rows of eight, one after the other. */
  function InRow<T>(rows: seq<seq<T>>): (r: seq<T>)
    requires |rows| == 8 && forall k :: 0 <= k < 8 ==> |rows[k]| == 8
    ensures |r| == 64 && forall i :: 0 <= i < 64 ==> r[i] == rows[i / 8][i % 8]
  {
    seq(64, i requires 0 <= i < 64 => rows[i / 8][i % 8])
  }

  const ROUND_ROWS: seq<WordRow> := [
    [0x428a2f98, 0x71374491, 0xb5c0fbcf, 0xe9b5dba5, 0x3956c25b, 0x59f111f1, 0x923f82a4, 0xab1c5ed5],
    [0xd807aa98, 0x12835b01, 0x243185be, 0x550c7dc3, 0x72be5d74, 0x80deb1fe, 0x9bdc06a7, 0xc19bf174],
    [0xe49b69c1, 0xefbe4786, 0x0fc19dc6, 0x240ca1cc, 0x2de92c6f, 0x4a7484aa, 0x5cb0a9dc, 0x76f988da],
    [0x983e5152, 0xa831c66d, 0xb00327c8, 0xbf597fc7, 0xc6e00bf3, 0xd5a79147, 0x06ca6351, 0x14292967],
    [0x27b70a85, 0x2e1b2138, 0x4d2c6dfc, 0x53380d13, 0x650a7354, 0x766a0abb, 0x81c2c92e, 0x92722c85],
    [0xa2bfe8a1, 0xa81a664b, 0xc24b8b70, 0xc76c51a3, 0xd192e819, 0xd6990624, 0xf40e3585, 0x106aa070],
    [0x19a4c116, 0x1e376c08, 0x2748774c, 0x34b0bcb5, 0x391c0cb3, 0x4ed8aa4a, 0x5b9cca4f, 0x682e6ff3],
    [0x748f82ee, 0x78a5636f, 0x84c87814, 0x8cc70208, 0x90befffa, 0xa4506ceb, 0xbef9a3f7, 0xc67178f2]]

  /** The round constants. */
  const K: seq<Word> := InRow(ROUND_ROWS)

  const PRIME_ROWS: seq<Row> := [
    [2, 3, 5, 7, 11, 13, 17, 19],
    [23, 29, 31, 37, 41, 43, 47, 53],
    [59, 61, 67, 71, 73, 79, 83, 89],
    [97, 101, 103, 107, 109, 113, 127, 131],
    [137, 139, 149, 151, 157, 163, 167, 173],
    [179, 181, 191, 193, 197, 199, 211, 223],
    [227, 229, 233, 239, 241, 251, 257, 263],
    [269, 271, 277, 281, 283, 293, 307, 311]]

  /** The first 64 primes. */
  const PRIMES: seq<nat> := InRow(PRIME_ROWS)

  // -------------------------------------------------------------------------
  // The first 64 primes.
  // -------------------------------------------------------------------------

  ghost predicate IsPrime(n: nat) {
    n >= 2 && forall a: nat, b: nat :: a >= 2 && b >= 2 ==> Times(a, b) != n
  }

  function Times(a: nat, b: nat): nat { a * b }

  predicate NoFactor(n: nat, d: nat)
    requires d > 0
  {
    n % d != 0 || n == d
  }

  /** No prime below 18 is a proper factor. */
  predicate Sieved(n: nat) {
    && NoFactor(n, 2) && NoFactor(n, 3) && NoFactor(n, 5) && NoFactor(n, 7)
    && NoFactor(n, 11) && NoFactor(n, 13) && NoFactor(n, 17)
  }

  /** A small proper factor has a prime factor that the sieve tries. */
  lemma SmallFactor(n: nat, a: nat, b: nat)
    requires n == Times(a, b) && 2 <= a <= 18 && b >= 2
    ensures !Sieved(n)
  {
    if a % 2 == 0 { Through(n, a, b, 2, a / 2); }
    else if a % 3 == 0 { Through(n, a, b, 3, a / 3); }
    else if a % 5 == 0 { Through(n, a, b, 5, a / 5); }
    else { Through(n, a, b, a, 1); }
  }

  lemma Through(n: nat, a: nat, b: nat, p: nat, c: nat)
    requires n == Times(a, b) && a == p * c && c >= 1 && b >= 2 && p in {2, 3, 5, 7, 11, 13, 17}
    ensures !NoFactor(n, p)
  {
    Regroup(p, c, b);
    TimesMonotone(b, 1, c);
    Multiple(p, Times(c, b));
  }

  lemma Regroup(p: nat, c: nat, b: nat)
    ensures Times(p * c, b) == p * Times(c, b)
  {}

  lemma Multiple(p: nat, m: nat)
    requires m >= 2 && p >= 2
    ensures p * m > p && (p * m) % p == 0
  {
    var q, r := (p * m) / p, (p * m) % p;
    assert p * m == p * q + r;
    if m > q { TimesMonotone(p, q + 1, m); }
    if m < q { TimesMonotone(p, m + 1, q); }
    TimesMonotone(p, 2, m);
  }

  lemma OneIsSmall(n: nat, a: nat, b: nat)
    requires n == Times(a, b) && n < 361
    ensures a <= 18 || b <= 18
  {
    if a >= 19 { TimesMonotone(a, 19, Max(19, b)); }
  }

  function Max(a: nat, b: nat): nat { if a < b then b else a }

  lemma HasFactor(n: nat, p: nat)
    requires p >= 2 && n >= 2 && !NoFactor(n, p)
    ensures !IsPrime(n)
  {
    var b := n / p;
    assert n == p * b;
    assert b >= 2;
    assert Times(p, b) == n;
  }

  /** Up to 360 the sieve finds exactly the primes. */
  lemma SievedExact(n: nat)
    requires 2 <= n < 361
    ensures Sieved(n) <==> IsPrime(n)
  {
    if Sieved(n) {
      forall a: nat, b: nat | a >= 2 && b >= 2 ensures Times(a, b) != n {
        if Times(a, b) == n {
          hide Sieved;
          OneIsSmall(n, a, b);
          if a <= 18 { SmallFactor(n, a, b); } else { SmallFactor(n, b, a); }
        }
      }
    } else {
      var p :| p in {2, 3, 5, 7, 11, 13, 17} && !NoFactor(n, p);
      HasFactor(n, p);
    }
  }

  /** Beyond 3 only numbers beside a multiple of six pass. */
  lemma SixApart(n: nat, q: nat)
    requires n >= 4 && q == n / 6
    ensures Sieved(n) ==> n == 6 * q + 1 || n == 6 * q + 5
  {
    var r := n - 6 * q;
    assert 0 <= r < 6;
    if r % 2 == 0 { assert n % 2 == 0; }
    if r == 3 { assert n % 3 == 0; }
    hide Sieved, NoFactor;
    assert Sieved(n) ==> NoFactor(n, 2) && NoFactor(n, 3) by { SievedSmall(n); }
    assert n % 2 == 0 ==> !NoFactor(n, 2) by { SmallFactorFails(n); }
    assert n % 3 == 0 ==> !NoFactor(n, 3) by { SmallFactorFails(n); }
  }

  lemma SievedSmall(n: nat)
    ensures Sieved(n) ==> NoFactor(n, 2) && NoFactor(n, 3)
  {}

  lemma SmallFactorFails(n: nat)
    requires n >= 4
    ensures n % 2 == 0 ==> !NoFactor(n, 2)
    ensures n % 3 == 0 ==> !NoFactor(n, 3)
  {}

  lemma Row0Listed(n: nat)
    ensures n in PRIME_ROWS[0] <==> n in {2, 3, 5, 7, 11, 13, 17, 19}
  {
    assert PRIME_ROWS[0] == [2, 3, 5, 7, 11, 13, 17, 19];
  }

  lemma Row0Sieved(n: nat)
    requires 2 <= n <= 19
    ensures Sieved(n) <==> n in PRIME_ROWS[0]
  {
    Row0Listed(n);
    if n >= 4 { SixApart(n, n / 6); }
    match n / 6 {
      case 0 => case 1 => case 2 => case 3 => case _ =>
    }
  }

  lemma Row1Listed(n: nat)
    ensures n in PRIME_ROWS[1] <==> n in {23, 29, 31, 37, 41, 43, 47, 53}
  {
    assert PRIME_ROWS[1] == [23, 29, 31, 37, 41, 43, 47, 53];
  }

  lemma Row1Sieved(n: nat)
    requires 20 <= n <= 53
    ensures Sieved(n) <==> n in PRIME_ROWS[1]
  {
    Row1Listed(n);
    SixApart(n, n / 6);
    match n / 6 {
      case 3 => case 4 => case 5 => case 6 => case 7 => case 8 => case _ =>
    }
  }

  lemma Row2Listed(n: nat)
    ensures n in PRIME_ROWS[2] <==> n in {59, 61, 67, 71, 73, 79, 83, 89}
  {
    assert PRIME_ROWS[2] == [59, 61, 67, 71, 73, 79, 83, 89];
  }

  lemma Row2Sieved(n: nat)
    requires 54 <= n <= 89
    ensures Sieved(n) <==> n in PRIME_ROWS[2]
  {
    Row2Listed(n);
    SixApart(n, n / 6);
    match n / 6 {
      case 9 => case 10 => case 11 => case 12 => case 13 => case 14 => case _ =>
    }
  }

  lemma Row3Listed(n: nat)
    ensures n in PRIME_ROWS[3] <==> n in {97, 101, 103, 107, 109, 113, 127, 131}
  {
    assert PRIME_ROWS[3] == [97, 101, 103, 107, 109, 113, 127, 131];
  }

  lemma Row3Sieved(n: nat)
    requires 90 <= n <= 131
    ensures Sieved(n) <==> n in PRIME_ROWS[3]
  {
    Row3Listed(n);
    SixApart(n, n / 6);
    match n / 6 {
      case 15 => case 16 => case 17 => case 18 => case 19 => case 20 => case 21 => case _ =>
    }
  }

  lemma Row4Listed(n: nat)
    ensures n in PRIME_ROWS[4] <==> n in {137, 139, 149, 151, 157, 163, 167, 173}
  {
    assert PRIME_ROWS[4] == [137, 139, 149, 151, 157, 163, 167, 173];
  }

  lemma Row4Sieved(n: nat)
    requires 132 <= n <= 173
    ensures Sieved(n) <==> n in PRIME_ROWS[4]
  {
    Row4Listed(n);
    SixApart(n, n / 6);
    match n / 6 {
      case 22 => case 23 => case 24 => case 25 => case 26 => case 27 => case 28 => case _ =>
    }
  }

  lemma Row5Listed(n: nat)
    ensures n in PRIME_ROWS[5] <==> n in {179, 181, 191, 193, 197, 199, 211, 223}
  {
    assert PRIME_ROWS[5] == [179, 181, 191, 193, 197, 199, 211, 223];
  }

  lemma Row5Sieved(n: nat)
    requires 174 <= n <= 223
    ensures Sieved(n) <==> n in PRIME_ROWS[5]
  {
    Row5Listed(n);
    SixApart(n, n / 6);
    match n / 6 {
      case 29 => case 30 => case 31 => case 32 => case 33 => case 34 => case 35 => case 36 => case 37 => case _ =>
    }
  }

  lemma Row6Listed(n: nat)
    ensures n in PRIME_ROWS[6] <==> n in {227, 229, 233, 239, 241, 251, 257, 263}
  {
    assert PRIME_ROWS[6] == [227, 229, 233, 239, 241, 251, 257, 263];
  }

  lemma Row6Sieved(n: nat)
    requires 224 <= n <= 263
    ensures Sieved(n) <==> n in PRIME_ROWS[6]
  {
    Row6Listed(n);
    SixApart(n, n / 6);
    match n / 6 {
      case 37 => case 38 => case 39 => case 40 => case 41 => case 42 => case 43 => case _ =>
    }
  }

  lemma Row7Listed(n: nat)
    ensures n in PRIME_ROWS[7] <==> n in {269, 271, 277, 281, 283, 293, 307, 311}
  {
    assert PRIME_ROWS[7] == [269, 271, 277, 281, 283, 293, 307, 311];
  }

  lemma Row7Sieved(n: nat)
    requires 264 <= n <= 311
    ensures Sieved(n) <==> n in PRIME_ROWS[7]
  {
    Row7Listed(n);
    SixApart(n, n / 6);
    match n / 6 {
      case 44 => case 45 => case 46 => case 47 => case 48 => case 49 => case 50 => case 51 => case _ =>
    }
  }

  // -------------------------------------------------------------------------
  // Their roots.
  // -------------------------------------------------------------------------

  function Cube(x: nat): nat { x * x * x }

  /** `part` is the first 32 bits behind the point of the cube root of `p`. */
  predicate CubeRoot(p: nat, whole: nat, part: Word) {
    var x := whole * 0x1_0000_0000 + part;
    Cube(x) <= p * 0x1_0000_0000_0000_0000_0000_0000 < Cube(x + 1)
  }

  predicate SquareRoot(p: nat, whole: nat, part: Word) {
    var x := whole * 0x1_0000_0000 + part;
    x * x <= p * 0x1_0000_0000_0000_0000 < (x + 1) * (x + 1)
  }

  lemma Row0FromRoots(j: nat)
    requires j < 8
    ensures exists whole :: CubeRoot(PRIME_ROWS[0][j], whole, ROUND_ROWS[0][j])
  {
    var primes, words := PRIME_ROWS[0], ROUND_ROWS[0];
    assert CubeRoot(primes[0], 1, words[0]);
    assert CubeRoot(primes[1], 1, words[1]);
    assert CubeRoot(primes[2], 1, words[2]);
    assert CubeRoot(primes[3], 1, words[3]);
    assert CubeRoot(primes[4], 2, words[4]);
    assert CubeRoot(primes[5], 2, words[5]);
    assert CubeRoot(primes[6], 2, words[6]);
    assert CubeRoot(primes[7], 2, words[7]);
  }

  lemma Row1FromRoots(j: nat)
    requires j < 8
    ensures exists whole :: CubeRoot(PRIME_ROWS[1][j], whole, ROUND_ROWS[1][j])
  {
    var primes, words := PRIME_ROWS[1], ROUND_ROWS[1];
    assert CubeRoot(primes[0], 2, words[0]);
    assert CubeRoot(primes[1], 3, words[1]);
    assert CubeRoot(primes[2], 3, words[2]);
    assert CubeRoot(primes[3], 3, words[3]);
    assert CubeRoot(primes[4], 3, words[4]);
    assert CubeRoot(primes[5], 3, words[5]);
    assert CubeRoot(primes[6], 3, words[6]);
    assert CubeRoot(primes[7], 3, words[7]);
  }

  lemma Row2FromRoots(j: nat)
    requires j < 8
    ensures exists whole :: CubeRoot(PRIME_ROWS[2][j], whole, ROUND_ROWS[2][j])
  {
    var primes, words := PRIME_ROWS[2], ROUND_ROWS[2];
    assert CubeRoot(primes[0], 3, words[0]);
    assert CubeRoot(primes[1], 3, words[1]);
    assert CubeRoot(primes[2], 4, words[2]);
    assert CubeRoot(primes[3], 4, words[3]);
    assert CubeRoot(primes[4], 4, words[4]);
    assert CubeRoot(primes[5], 4, words[5]);
    assert CubeRoot(primes[6], 4, words[6]);
    assert CubeRoot(primes[7], 4, words[7]);
  }

  lemma Row3FromRoots(j: nat)
    requires j < 8
    ensures exists whole :: CubeRoot(PRIME_ROWS[3][j], whole, ROUND_ROWS[3][j])
  {
    var primes, words := PRIME_ROWS[3], ROUND_ROWS[3];
    assert CubeRoot(primes[0], 4, words[0]);
    assert CubeRoot(primes[1], 4, words[1]);
    assert CubeRoot(primes[2], 4, words[2]);
    assert CubeRoot(primes[3], 4, words[3]);
    assert CubeRoot(primes[4], 4, words[4]);
    assert CubeRoot(primes[5], 4, words[5]);
    assert CubeRoot(primes[6], 5, words[6]);
    assert CubeRoot(primes[7], 5, words[7]);
  }

  lemma Row4FromRoots(j: nat)
    requires j < 8
    ensures exists whole :: CubeRoot(PRIME_ROWS[4][j], whole, ROUND_ROWS[4][j])
  {
    var primes, words := PRIME_ROWS[4], ROUND_ROWS[4];
    assert CubeRoot(primes[0], 5, words[0]);
    assert CubeRoot(primes[1], 5, words[1]);
    assert CubeRoot(primes[2], 5, words[2]);
    assert CubeRoot(primes[3], 5, words[3]);
    assert CubeRoot(primes[4], 5, words[4]);
    assert CubeRoot(primes[5], 5, words[5]);
    assert CubeRoot(primes[6], 5, words[6]);
    assert CubeRoot(primes[7], 5, words[7]);
  }

  lemma Row5FromRoots(j: nat)
    requires j < 8
    ensures exists whole :: CubeRoot(PRIME_ROWS[5][j], whole, ROUND_ROWS[5][j])
  {
    var primes, words := PRIME_ROWS[5], ROUND_ROWS[5];
    assert CubeRoot(primes[0], 5, words[0]);
    assert CubeRoot(primes[1], 5, words[1]);
    assert CubeRoot(primes[2], 5, words[2]);
    assert CubeRoot(primes[3], 5, words[3]);
    assert CubeRoot(primes[4], 5, words[4]);
    assert CubeRoot(primes[5], 5, words[5]);
    assert CubeRoot(primes[6], 5, words[6]);
    assert CubeRoot(primes[7], 6, words[7]);
  }

  lemma Row6FromRoots(j: nat)
    requires j < 8
    ensures exists whole :: CubeRoot(PRIME_ROWS[6][j], whole, ROUND_ROWS[6][j])
  {
    var primes, words := PRIME_ROWS[6], ROUND_ROWS[6];
    assert CubeRoot(primes[0], 6, words[0]);
    assert CubeRoot(primes[1], 6, words[1]);
    assert CubeRoot(primes[2], 6, words[2]);
    assert CubeRoot(primes[3], 6, words[3]);
    assert CubeRoot(primes[4], 6, words[4]);
    assert CubeRoot(primes[5], 6, words[5]);
    assert CubeRoot(primes[6], 6, words[6]);
    assert CubeRoot(primes[7], 6, words[7]);
  }

  lemma Row7FromRoots(j: nat)
    requires j < 8
    ensures exists whole :: CubeRoot(PRIME_ROWS[7][j], whole, ROUND_ROWS[7][j])
  {
    var primes, words := PRIME_ROWS[7], ROUND_ROWS[7];
    assert CubeRoot(primes[0], 6, words[0]);
    assert CubeRoot(primes[1], 6, words[1]);
    assert CubeRoot(primes[2], 6, words[2]);
    assert CubeRoot(primes[3], 6, words[3]);
    assert CubeRoot(primes[4], 6, words[4]);
    assert CubeRoot(primes[5], 6, words[5]);
    assert CubeRoot(primes[6], 6, words[6]);
    assert CubeRoot(primes[7], 6, words[7]);
  }

  /** Each round constant comes from the cube root of its prime. */
  lemma RoundConstant(i: nat)
    requires i < 64
    ensures exists whole :: CubeRoot(PRIMES[i], whole, K[i])
  {
    var r, j := i / 8, i % 8;
    assert PRIMES[i] == PRIME_ROWS[r][j] && K[i] == ROUND_ROWS[r][j];
    hide CubeRoot;
    match r {
      case 0 => Row0FromRoots(j);
      case 1 => Row1FromRoots(j);
      case 2 => Row2FromRoots(j);
      case 3 => Row3FromRoots(j);
      case 4 => Row4FromRoots(j);
      case 5 => Row5FromRoots(j);
      case 6 => Row6FromRoots(j);
      case 7 => Row7FromRoots(j);
    }
  }

  lemma Listed(n: nat)
    ensures n in PRIMES <==> exists r :: 0 <= r < 8 && n in PRIME_ROWS[r]
  {
    if n in PRIMES {
      var i :| 0 <= i < 64 && PRIMES[i] == n;
      assert n in PRIME_ROWS[i / 8];
    }
    if r :| 0 <= r < 8 && n in PRIME_ROWS[r] {
      var j :| 0 <= j < 8 && PRIME_ROWS[r][j] == n;
      assert (8 * r + j) / 8 == r && (8 * r + j) % 8 == j;
      assert PRIMES[8 * r + j] == n;
    }
  }

  /** `PRIMES` lists the first 64 primes: those up to 311. */
  lemma PrimesExact(n: nat)
    requires 2 <= n <= 311
    ensures IsPrime(n) <==> n in PRIMES
  {
    SievedExact(n);
    Listed(n);
    hide IsPrime, Sieved, PRIMES, PRIME_ROWS;
    RowsApart(n);
    if n <= 19 { Row0Sieved(n); }
    else if n <= 53 { Row1Sieved(n); }
    else if n <= 89 { Row2Sieved(n); }
    else if n <= 131 { Row3Sieved(n); }
    else if n <= 173 { Row4Sieved(n); }
    else if n <= 223 { Row5Sieved(n); }
    else if n <= 263 { Row6Sieved(n); }
    else { Row7Sieved(n); }
  }

  lemma RowsApart(n: nat)
    ensures n in PRIME_ROWS[0] ==> 1 < n <= 19
    ensures n in PRIME_ROWS[1] ==> 19 < n <= 53
    ensures n in PRIME_ROWS[2] ==> 53 < n <= 89
    ensures n in PRIME_ROWS[3] ==> 89 < n <= 131
    ensures n in PRIME_ROWS[4] ==> 131 < n <= 173
    ensures n in PRIME_ROWS[5] ==> 173 < n <= 223
    ensures n in PRIME_ROWS[6] ==> 223 < n <= 263
    ensures n in PRIME_ROWS[7] ==> 263 < n <= 311
  {
    Row0Listed(n);
    Row1Listed(n);
    Row2Listed(n);
    Row3Listed(n);
    Row4Listed(n);
    Row5Listed(n);
    Row6Listed(n);
    Row7Listed(n);
    hide PRIME_ROWS;
  }

  lemma NextPrime(i: nat)
    requires i < 63
    ensures PRIMES[i] < PRIMES[i + 1]
  {
    var r, j := i / 8, i % 8;
    assert PRIMES[i] == PRIME_ROWS[r][j];
    if j < 7 {
      assert (i + 1) / 8 == r && (i + 1) % 8 == j + 1;
      match r { case 0 => case 1 => case 2 => case 3 => case 4 => case 5 => case 6 => case 7 => }
    } else {
      assert (i + 1) / 8 == r + 1 && (i + 1) % 8 == 0;
      match r { case 0 => case 1 => case 2 => case 3 => case 4 => case 5 => case 6 => }
    }
  }

  /** In increasing order, so each is the prime of its position. */
  lemma {:induction false} PrimesIncrease(i: nat, j: nat)
    requires i < j < 64
    ensures PRIMES[i] < PRIMES[j]
    decreases j
  {
    hide PRIMES;
    NextPrime(j - 1);
    if i < j - 1 { PrimesIncrease(i, j - 1); }
  }
}
