/** SHA-256 as the host tool computes it: in-place schedule, rotating variables
    and a growing message buffer, refined to the recursive definitions of
    FIPS 180-4. */
module Sha256 {
  import opened Octets
  import opened Arithmetic
  import opened Constants

  // -------------------------------------------------------------------------
  // 32-bit words: wrapping addition, and bitwise operations bit by bit.
  // -------------------------------------------------------------------------

  function Add(x: Word, y: Word): Word { (x + y) % 0x1_0000_0000 }

  /** The low `n` bits of two numbers, combined bit by bit. */
  function Bits(x: nat, y: nat, n: nat, op: (bool, bool) -> bool): (r: nat)
    ensures r < Pow2(n)
  {
    if n == 0 then 0
    else (if op(x % 2 == 1, y % 2 == 1) then 1 else 0) + 2 * Bits(x / 2, y / 2, n - 1, op)
  }

  predicate Bit(x: nat, k: nat) { if k == 0 then x % 2 == 1 else Bit(x / 2, k - 1) }

  lemma LowBit(low: nat, rest: nat)
    requires low < 2
    ensures (low + 2 * rest) % 2 == low && (low + 2 * rest) / 2 == rest
  {}

  /** Bit `k` of the combination is the combination of the two bits `k`. */
  lemma {:induction false} BitsBit(x: nat, y: nat, n: nat, op: (bool, bool) -> bool, k: nat)
    requires k < n
    ensures Bit(Bits(x, y, n, op), k) == op(Bit(x, k), Bit(y, k))
  {
    var low := if op(x % 2 == 1, y % 2 == 1) then 1 else 0;
    var rest := Bits(x / 2, y / 2, n - 1, op);
    LowBit(low, rest);
    if k > 0 { BitsBit(x / 2, y / 2, n - 1, op, k - 1); }
  }

  lemma WordSize()
    ensures Pow2(32) == 0x1_0000_0000
  {
    assert Pow2(8) == 256;
    assert Pow2(16) == 256 * Pow2(8);
    assert Pow2(24) == 256 * Pow2(16);
    assert Pow2(32) == 256 * Pow2(24);
  }

  function Xor(x: Word, y: Word): Word { WordSize(); Bits(x, y, 32, (a, b) => a != b) }
  function And(x: Word, y: Word): Word { WordSize(); Bits(x, y, 32, (a, b) => a && b) }
  function Not(x: Word): Word { WordSize(); Bits(x, 0, 32, (a, _) => !a) }

  function ShrWord(x: Word, n: nat): Word {
    ShrFits(x, n);
    x / Pow2(n)
  }

  lemma ShrFits(x: nat, n: nat)
    ensures 0 <= x / Pow2(n) <= x
  {
    QuotientSmall(x, Pow2(n));
  }

  lemma QuotientSmall(x: nat, p: nat)
    requires p > 0
    ensures 0 <= x / p <= x
  {
    MulGrows(p, x + 1);
    HighPart(x, p, x + 1);
  }

  lemma {:induction false} MulGrows(p: nat, k: nat)
    requires p > 0
    ensures k <= p * k
  {
    if k > 0 {
      MulGrows(p, k - 1);
      assert p * k == p * (k - 1) + p;
    }
  }

  function Rotated(x: nat, n: nat): int
    requires n <= 32
  {
    var p, q := Pow2(n), Pow2(32 - n);
    x / p + (x % p) * q
  }

  /** Rotation to the right by fewer than 32 places. */
  function Rotr(x: Word, n: nat): Word
    requires n < 32
  {
    RotrFits(x, n);
    Rotated(x, n)
  }

  lemma {:induction false} Pow2Sum(a: nat, b: nat)
    ensures Pow2(a) * Pow2(b) == Pow2(a + b)
  {
    if a > 0 {
      Pow2Sum(a - 1, b);
      DoubleProduct(Pow2(a - 1), Pow2(b));
    }
  }

  lemma DoubleProduct(p: nat, q: nat)
    ensures (2 * p) * q == 2 * (p * q)
  {}

  lemma RotrFits(x: Word, n: nat)
    requires n < 32
    ensures 0 <= Rotated(x, n) < 0x1_0000_0000
  {
    WordSize();
    Pow2Sum(n, 32 - n);
    PartsFit(x, Pow2(n), Pow2(32 - n));
  }

  lemma PartsFit(x: nat, p: nat, q: nat)
    requires p > 0 && x < p * q
    ensures 0 <= x / p + (x % p) * q < p * q
  {
    HighPart(x, p, q);
    LowPart(x % p, p, q);
  }

  lemma HighPart(x: nat, p: nat, q: nat)
    requires p > 0 && x < p * q
    ensures 0 <= x / p < q
  {
    var d := x / p;
    assert x == p * d + x % p;
    assert d >= q ==> p * d >= p * q;
  }

  lemma LowPart(r: nat, p: nat, q: nat)
    requires r < p
    ensures 0 <= r * q && r * q + q <= p * q
  {
    assert (r + 1) * q <= p * q;
  }

  lemma Halve(lo: nat, hi: nat, p: nat)
    ensures (lo + hi * (2 * p)) % 2 == lo % 2 && (lo + hi * (2 * p)) / 2 == lo / 2 + hi * p
  {
    assert hi * (2 * p) == 2 * (hi * p);
  }

  /** The bits of two numbers side by side. */
  lemma {:induction false} BitJoin(lo: nat, hi: nat, m: nat, k: nat)
    requires lo < Pow2(m)
    ensures Bit(lo + hi * Pow2(m), k) == if k < m then Bit(lo, k) else Bit(hi, k - m)
  {
    if m > 0 {
      Halve(lo, hi, Pow2(m - 1));
      if k > 0 { BitJoin(lo / 2, hi, m - 1, k - 1); }
    } else {
      assert hi * Pow2(0) == hi;
    }
  }

  lemma SplitAt(x: nat, p: nat)
    requires p > 0
    ensures 0 <= x % p < p && 0 <= x / p && x == x % p + x / p * p
  {
    assert x == p * (x / p) + x % p;
    QuotientSmall(x, p);
  }

  /** Shifting right by `n` moves bit `k + n` to place `k`. */
  lemma ShrBit(x: Word, n: nat, k: nat)
    ensures Bit(ShrWord(x, n), k) == Bit(x, k + n)
  {
    hide Bit, Pow2;
    SplitAt(x, Pow2(n));
    BitJoin(x % Pow2(n), x / Pow2(n), n, k + n);
  }

  /** Rotating right by `n` moves every bit `n` places down, around the word. */
  lemma RotrBit(x: Word, n: nat, k: nat)
    requires n < 32 && k < 32
    ensures Bit(Rotr(x, n), k) == Bit(x, (k + n) % 32)
  {
    hide Bit, Pow2;
    var p, q := Pow2(n), Pow2(32 - n);
    SplitAt(x, p);
    assert x / p < q by {
      WordSize();
      Pow2Sum(n, 32 - n);
      HighPart(x, p, q);
    }
    BitJoin(x / p, x % p, 32 - n, k);
    if k < 32 - n {
      BitJoin(x % p, x / p, n, k + n);
    } else {
      BitJoin(x % p, x / p, n, k + n - 32);
    }
  }

  // -------------------------------------------------------------------------
  // FIPS 180-4 section 4.1.2: the logical functions; 5.3.3: the initial hash value.
  // -------------------------------------------------------------------------

  function Ch(x: Word, y: Word, z: Word): Word { Xor(And(x, y), And(Not(x), z)) }
  function Maj(x: Word, y: Word, z: Word): Word { Xor(Xor(And(x, y), And(x, z)), And(y, z)) }
  function BigSigma0(x: Word): Word { Xor(Xor(Rotr(x, 2), Rotr(x, 13)), Rotr(x, 22)) }
  function BigSigma1(x: Word): Word { Xor(Xor(Rotr(x, 6), Rotr(x, 11)), Rotr(x, 25)) }
  function SmallSigma0(x: Word): Word { Xor(Xor(Rotr(x, 7), Rotr(x, 18)), ShrWord(x, 3)) }
  function SmallSigma1(x: Word): Word { Xor(Xor(Rotr(x, 17), Rotr(x, 19)), ShrWord(x, 10)) }

  const H0: State := State(
    0x6a09e667, 0xbb67ae85, 0x3c6ef372, 0xa54ff53a, 0x510e527f, 0x9b05688c, 0x1f83d9ab, 0x5be0cd19)

  /** Where `x` has a bit, the bit of `y`; elsewhere that of `z`. */
  lemma ChBit(x: Word, y: Word, z: Word, k: nat)
    requires k < 32
    ensures Bit(Ch(x, y, z), k) == if Bit(x, k) then Bit(y, k) else Bit(z, k)
  {
    hide Bit, Bits;
    WordSize();
    BitsBit(x, y, 32, (a, b) => a && b, k);
    BitsBit(x, 0, 32, (a, _) => !a, k);
    BitsBit(Not(x), z, 32, (a, b) => a && b, k);
    BitsBit(And(x, y), And(Not(x), z), 32, (a, b) => a != b, k);
  }

  /** The bit that at least two of the three have. */
  lemma MajBit(x: Word, y: Word, z: Word, k: nat)
    requires k < 32
    ensures Bit(Maj(x, y, z), k)
       <==> (Bit(x, k) && Bit(y, k)) || (Bit(x, k) && Bit(z, k)) || (Bit(y, k) && Bit(z, k))
  {
    hide Bit, Bits;
    WordSize();
    BitsBit(x, y, 32, (a, b) => a && b, k);
    BitsBit(x, z, 32, (a, b) => a && b, k);
    BitsBit(y, z, 32, (a, b) => a && b, k);
    BitsBit(And(x, y), And(x, z), 32, (a, b) => a != b, k);
    BitsBit(Xor(And(x, y), And(x, z)), And(y, z), 32, (a, b) => a != b, k);
  }

  /** An odd number of the three hold. */
  predicate Odd(a: bool, b: bool, c: bool) { (a != b) != c }

  lemma XorBit(x: Word, y: Word, z: Word, k: nat)
    requires k < 32
    ensures Bit(Xor(Xor(x, y), z), k) == Odd(Bit(x, k), Bit(y, k), Bit(z, k))
  {
    hide Bit, Bits;
    WordSize();
    BitsBit(x, y, 32, (a, b) => a != b, k);
    BitsBit(Xor(x, y), z, 32, (a, b) => a != b, k);
  }

  /** Bit `k` of each sigma is the sum of three bits of its argument, at the
      distances the standard gives. */
  lemma SigmaBits(x: Word, k: nat)
    requires k < 32
    ensures Bit(BigSigma0(x), k) == Odd(Bit(x, (k + 2) % 32), Bit(x, (k + 13) % 32), Bit(x, (k + 22) % 32))
    ensures Bit(BigSigma1(x), k) == Odd(Bit(x, (k + 6) % 32), Bit(x, (k + 11) % 32), Bit(x, (k + 25) % 32))
    ensures Bit(SmallSigma0(x), k) == Odd(Bit(x, (k + 7) % 32), Bit(x, (k + 18) % 32), Bit(x, k + 3))
    ensures Bit(SmallSigma1(x), k) == Odd(Bit(x, (k + 17) % 32), Bit(x, (k + 19) % 32), Bit(x, k + 10))
  {
    hide Bit, Xor, Rotr, ShrWord;
    XorBit(Rotr(x, 2), Rotr(x, 13), Rotr(x, 22), k);
    XorBit(Rotr(x, 6), Rotr(x, 11), Rotr(x, 25), k);
    XorBit(Rotr(x, 7), Rotr(x, 18), ShrWord(x, 3), k);
    XorBit(Rotr(x, 17), Rotr(x, 19), ShrWord(x, 10), k);
    RotrBits(x, k, 2, 13, 22);
    RotrBits(x, k, 6, 11, 25);
    RotrBits(x, k, 7, 18, 17);
    RotrBit(x, 19, k);
    ShrBit(x, 3, k);
    ShrBit(x, 10, k);
  }

  lemma RotrBits(x: Word, k: nat, a: nat, b: nat, c: nat)
    requires k < 32 && a < 32 && b < 32 && c < 32
    ensures Bit(Rotr(x, a), k) == Bit(x, (k + a) % 32) && Bit(Rotr(x, b), k) == Bit(x, (k + b) % 32)
    ensures Bit(Rotr(x, c), k) == Bit(x, (k + c) % 32)
  {
    RotrBit(x, a, k);
    RotrBit(x, b, k);
    RotrBit(x, c, k);
  }

  /** The bits determine the word. */
  lemma {:induction false} BitsPin(x: nat, y: nat, n: nat)
    requires x < Pow2(n) && y < Pow2(n) && forall k :: 0 <= k < n ==> Bit(x, k) == Bit(y, k)
    ensures x == y
  {
    if n > 0 {
      assert Bit(x, 0) == Bit(y, 0);
      forall k | 0 <= k < n - 1 ensures Bit(x / 2, k) == Bit(y / 2, k) { assert Bit(x, k + 1) == Bit(y, k + 1); }
      BitsPin(x / 2, y / 2, n - 1);
      assert x == 2 * (x / 2) + x % 2 && y == 2 * (y / 2) + y % 2;
    }
  }

  /** Each initial hash word comes from the square root of its prime. */
  lemma InitialWord(i: nat)
    requires i < 8
    ensures exists whole :: SquareRoot(PRIMES[i], whole, H0.Words()[i])
  {
    assert PRIME_ROWS[0] == [2, 3, 5, 7, 11, 13, 17, 19];
    assert PRIMES[i] == PRIME_ROWS[0][i];
    if i < 4 { SmallRoots(i); } else { LargeRoots(i); }
  }

  lemma SmallRoots(i: nat)
    requires i < 4
    ensures exists whole :: SquareRoot([2, 3, 5, 7][i], whole, H0.Words()[i])
  {
    var primes, words := [2, 3, 5, 7], H0.Words();
    assert SquareRoot(primes[0], 1, words[0]) && SquareRoot(primes[1], 1, words[1]);
    assert SquareRoot(primes[2], 2, words[2]) && SquareRoot(primes[3], 2, words[3]);
  }

  lemma LargeRoots(i: nat)
    requires 4 <= i < 8
    ensures var p := [11, 13, 17, 19][i - 4]; exists whole :: SquareRoot(p, whole, H0.Words()[i])
  {
    var primes, words := [11, 13, 17, 19], H0.Words();
    assert SquareRoot(primes[0], 3, words[4]) && SquareRoot(primes[1], 3, words[5]);
    assert SquareRoot(primes[2], 4, words[6]) && SquareRoot(primes[3], 4, words[7]);
    match i { case 4 => case 5 => case 6 => case 7 => }
    assert SquareRoot(primes[i - 4], if i < 6 then 3 else 4, words[i]);
  }

  // -------------------------------------------------------------------------
  // Section 6.2.2: the hash computation.
  // -------------------------------------------------------------------------

  /** The eight hash words, or the eight working variables. */
  datatype State = State(a: Word, b: Word, c: Word, d: Word, e: Word, f: Word, g: Word, h: Word) {
    function Words(): seq<Word> { [a, b, c, d, e, f, g, h] }
  }

  function BeWord(b0: Byte, b1: Byte, b2: Byte, b3: Byte): Word {
    b0 * 0x100_0000 + b1 * 0x1_0000 + b2 * 0x100 + b3
  }

  /** Word `t` of the message schedule. */
  function W(block: seq<Byte>, t: nat): Word
    requires |block| == 64
  {
    if t < 16 then BeWord(block[4 * t], block[4 * t + 1], block[4 * t + 2], block[4 * t + 3])
    else Add(Add(Add(SmallSigma1(W(block, t - 2)), W(block, t - 7)), SmallSigma0(W(block, t - 15))), W(block, t - 16))
  }

  function T1(v: State, k: Word, w: Word): Word {
    Add(Add(Add(Add(v.h, BigSigma1(v.e)), Ch(v.e, v.f, v.g)), k), w)
  }

  function T2(v: State): Word {
    Add(BigSigma0(v.a), Maj(v.a, v.b, v.c))
  }

  /** One of the 64 steps: all eight variables change at once. */
  function Step(v: State, k: Word, w: Word): State {
    var t1 := T1(v, k, w);
    State(Add(t1, T2(v)), v.a, v.b, v.c, Add(v.d, t1), v.e, v.f, v.g)
  }

  function Steps(v: State, block: seq<Byte>, t: nat): State
    requires |block| == 64 && t <= 64
  {
    if t == 0 then v else Step(Steps(v, block, t - 1), K[t - 1], W(block, t - 1))
  }

  function Plus(x: State, y: State): State {
    State(Add(x.a, y.a), Add(x.b, y.b), Add(x.c, y.c), Add(x.d, y.d),
          Add(x.e, y.e), Add(x.f, y.f), Add(x.g, y.g), Add(x.h, y.h))
  }

  /** The hash value after one block. */
  function Compressed(h: State, block: seq<Byte>): State
    requires |block| == 64
  {
    Plus(Steps(h, block, 64), h)
  }

  function Compressor(): (State, seq<Byte>) -> State {
    (h: State, block: seq<Byte>) => if |block| == 64 then Compressed(h, block) else h
  }

  /** A state carried through every whole 64-byte block of a message. */
  function FoldBlocks<S>(step: (S, seq<Byte>) -> S, s: S, message: seq<Byte>): S
    decreases |message|
  {
    if |message| < 64 then s else FoldBlocks(step, step(s, message[..64]), message[64..])
  }

  /** The hash value after every whole block of a message. */
  function Hashed(h: State, message: seq<Byte>): State {
    FoldBlocks(Compressor(), h, message)
  }

  /** Section 5.1.1: a one bit, zeros, and the length in bits, in 64 bits. */
  function Padded(message: seq<Byte>): seq<Byte> {
    message + [0x80] + Zeros(ZeroCount(|message|)) + Be64((8 * |message|) % 0x1_0000_0000_0000_0000)
  }

  function Zeros(n: nat): (z: seq<Byte>)
    ensures |z| == n
  {
    if n == 0 then [] else Zeros(n - 1) + [0]
  }

  /** Zero bytes needed to bring the length to 56 modulo 64. */
  function ZeroCount(n: nat): nat { (119 - n % 64) % 64 }

  /** Big-endian bytes of a word, and of a 64-bit number. */
  function Be32(w: Word): (bytes: seq<Byte>)
    ensures |bytes| == 4
  {
    [w / 0x100_0000, w / 0x1_0000 % 0x100, w / 0x100 % 0x100, w % 0x100]
  }

  function Be64(n: nat): (bytes: seq<Byte>)
    requires n < 0x1_0000_0000_0000_0000
    ensures |bytes| == 8
  {
    Be32(n / 0x1_0000_0000) + Be32(n % 0x1_0000_0000)
  }

  function Digest(words: seq<Word>): seq<Byte> {
    if words == [] then [] else Digest(words[..|words| - 1]) + Be32(words[|words| - 1])
  }

  function Sha(message: seq<Byte>): seq<Byte> {
    Digest(Hashed(H0, Padded(message)).Words())
  }

  // -------------------------------------------------------------------------
  // The code.
  // -------------------------------------------------------------------------

  method Schedule(block: seq<Byte>) returns (w: array<Word>)
    requires |block| == 64
    ensures fresh(w) && w.Length == 64
    ensures forall t :: 0 <= t < 64 ==> w[t] == W(block, t)
  {
    w := new Word[64](_ => 0);
    LoadWords(w, block);
    ExtendWords(w, block);
  }

  method LoadWords(w: array<Word>, block: seq<Byte>)
    requires w.Length == 64 && |block| == 64
    modifies w
    ensures forall t :: 0 <= t < 16 ==> w[t] == W(block, t)
  {
    for i := 0 to 16
      invariant forall t :: 0 <= t < i ==> w[t] == W(block, t)
    {
      var j := i * 4;
      w[i] := BeWord(block[j], block[j + 1], block[j + 2], block[j + 3]);
    }
  }

  method ExtendWords(w: array<Word>, block: seq<Byte>)
    requires w.Length == 64 && |block| == 64
    requires forall t :: 0 <= t < 16 ==> w[t] == W(block, t)
    modifies w
    ensures forall t :: 0 <= t < 64 ==> w[t] == W(block, t)
  {
    for i := 16 to 64
      invariant forall t :: 0 <= t < i ==> w[t] == W(block, t)
    {
      hide W, Extend;
      var next := NextWord(w[..], block, i);
      w[i] := next;
    }
  }

  method NextWord(w: seq<Word>, block: seq<Byte>, i: nat) returns (next: Word)
    requires |w| == 64 && |block| == 64 && 16 <= i < 64
    requires forall t :: 0 <= t < i ==> w[t] == W(block, t)
    ensures next == W(block, i)
  {
    hide W, Extend;
    ExtendIsW(block, i);
    next := Extend(w[i - 16], w[i - 15], w[i - 7], w[i - 2]);
  }

  /** The schedule's recurrence in the order the code adds. */
  function Extend(w16: Word, w15: Word, w7: Word, w2: Word): Word {
    var s0 := SmallSigma0(w15);
    var s1 := SmallSigma1(w2);
    Add(Add(Add(w16, s0), w7), s1)
  }

  lemma ExtendIsW(block: seq<Byte>, t: nat)
    requires |block| == 64 && t >= 16
    ensures Extend(W(block, t - 16), W(block, t - 15), W(block, t - 7), W(block, t - 2)) == W(block, t)
  {
    SumOrder(W(block, t - 16), SmallSigma0(W(block, t - 15)), W(block, t - 7), SmallSigma1(W(block, t - 2)));
  }

  lemma SumOfThree(x: nat, y: nat, z: nat)
    ensures ((x + y) % 0x1_0000_0000 + z) % 0x1_0000_0000 == (x + y + z) % 0x1_0000_0000
  {}

  lemma SumOfFour(x: Word, y: Word, z: Word, w: Word)
    ensures Add(Add(Add(x, y), z), w) == (x + y + z + w) % 0x1_0000_0000
  {
    SumOfThree(x, y, z);
    SumOfThree(x + y, z, w);
  }

  lemma SumOrder(w16: Word, s0: Word, w7: Word, s1: Word)
    ensures Add(Add(Add(w16, s0), w7), s1) == Add(Add(Add(s1, w7), s0), w16)
  {
    SumOfFour(w16, s0, w7, s1);
    SumOfFour(s1, w7, s0, w16);
  }

  method Compress(h: array<Word>, block: seq<Byte>)
    requires h.Length == 8 && |block| == 64
    modifies h
    ensures h[..] == Compressed(StateOf(old(h[..])), block).Words()
  {
    ghost var start := StateOf(h[..]);
    var w := Schedule(block);
    var a, b, c, d := h[0], h[1], h[2], h[3];
    var e, f, g, hh := h[4], h[5], h[6], h[7];
    for i := 0 to 64
      invariant h[..] == old(h[..]) && w.Length == 64
      invariant forall t :: 0 <= t < 64 ==> w[t] == W(block, t)
      invariant State(a, b, c, d, e, f, g, hh) == Steps(start, block, i)
    {
      hide Add, Ch, Maj, BigSigma0, BigSigma1, W;
      ghost var v := State(a, b, c, d, e, f, g, hh);
      var s1 := BigSigma1(e);
      var ch := Ch(e, f, g);
      var temp1 := Add(Add(Add(Add(hh, s1), ch), K[i]), w[i]);
      var s0 := BigSigma0(a);
      var maj := Maj(a, b, c);
      var temp2 := Add(s0, maj);
      hh := g;
      g := f;
      f := e;
      e := Add(d, temp1);
      d := c;
      c := b;
      b := a;
      a := Add(temp1, temp2);
      assert State(a, b, c, d, e, f, g, hh) == Step(v, K[i], W(block, i));
    }
    AddBack(h, State(a, b, c, d, e, f, g, hh));
    PlusSwap(State(a, b, c, d, e, f, g, hh), start);
  }

  /** The working variables are added to the hash words in place. */
  method AddBack(h: array<Word>, v: State)
    requires h.Length == 8
    modifies h
    ensures h[..] == Plus(StateOf(old(h[..])), v).Words()
  {
    hide Add;
    h[0] := Add(h[0], v.a);
    h[1] := Add(h[1], v.b);
    h[2] := Add(h[2], v.c);
    h[3] := Add(h[3], v.d);
    h[4] := Add(h[4], v.e);
    h[5] := Add(h[5], v.f);
    h[6] := Add(h[6], v.g);
    h[7] := Add(h[7], v.h);
  }

  lemma PlusSwap(x: State, y: State)
    ensures Plus(x, y) == Plus(y, x)
  {}

  function StateOf(words: seq<Word>): (s: State)
    requires |words| == 8
    ensures s.Words() == words
  {
    State(words[0], words[1], words[2], words[3], words[4], words[5], words[6], words[7])
  }

  // -------------------------------------------------------------------------
  // Padding and the block loop.
  // -------------------------------------------------------------------------

  lemma ZerosNext(n: nat)
    ensures Zeros(n + 1) == Zeros(n) + [0]
  {}

  lemma PaddedSplit(message: seq<Byte>)
    ensures var p := Padded(message);
      && |p| == |message| + 9 + ZeroCount(|message|)
      && p[..|message|] == message
      && p[|p| - 8..] == Be64((8 * |message|) % 0x1_0000_0000_0000_0000)
  {
    var head := message + [0x80] + Zeros(ZeroCount(|message|));
    var tail := Be64((8 * |message|) % 0x1_0000_0000_0000_0000);
    assert Padded(message) == head + tail;
    assert (head + tail)[|head|..] == tail;
  }

  method Pad(data: seq<Byte>) returns (msg: seq<Byte>)
    ensures msg == Padded(data)
  {
    var bitLen := (8 * |data|) % 0x1_0000_0000_0000_0000;
    msg := data + [0x80];
    ghost var added := 0;
    assert data + [0x80] + Zeros(0) == data + [0x80];
    while |msg| % 64 != 56
      invariant added <= ZeroCount(|data|)
      invariant msg == data + [0x80] + Zeros(added)
      decreases ZeroCount(|data|) - added
    {
      ZerosNext(added);
      EnoughZeros(|data|, added);
      msg := msg + [0];
      added := added + 1;
    }
    EnoughZeros(|data|, added);
    msg := msg + Be64(bitLen);
  }

  /** `ZeroCount` is the first number of zeros that reaches 56 modulo 64. */
  lemma EnoughZeros(n: nat, z: nat)
    requires z <= ZeroCount(n)
    ensures (n + 1 + z) % 64 == 56 <==> z == ZeroCount(n)
  {}

  method Sha256Of(data: seq<Byte>) returns (out: seq<Byte>)
    ensures out == Sha(data)
  {
    var h := new Word[8](_ => 0);
    h[0], h[1], h[2], h[3] := H0.a, H0.b, H0.c, H0.d;
    h[4], h[5], h[6], h[7] := H0.e, H0.f, H0.g, H0.h;
    assert h[..] == H0.Words();
    var msg := Pad(data);
    PaddedLength(data);
    HashBlocks(h, msg);
    out := WriteDigest(h);
  }

  method HashBlocks(h: array<Word>, msg: seq<Byte>)
    requires h.Length == 8 && |msg| % 64 == 0
    modifies h
    ensures h[..] == Hashed(StateOf(old(h[..])), msg).Words()
  {
    ghost var start := StateOf(h[..]);
    for i := 0 to |msg| / 64
      invariant h[..] == Hashed(start, msg[..64 * i]).Words()
    {
      FoldNext(Compressor(), start, msg, i);
      Compress(h, msg[64 * i..64 * i + 64]);
    }
    assert msg[..64 * (|msg| / 64)] == msg;
  }

  lemma FoldNext<S>(step: (S, seq<Byte>) -> S, s: S, msg: seq<Byte>, i: nat)
    requires 64 * i + 64 <= |msg|
    ensures FoldBlocks(step, s, msg[..64 * (i + 1)])
         == step(FoldBlocks(step, s, msg[..64 * i]), msg[64 * i..64 * i + 64])
  {
    var done, block := msg[..64 * i], msg[64 * i..64 * i + 64];
    assert msg[..64 * (i + 1)] == done + block;
    FoldConcat(step, s, done, block);
    assert block[..64] == block && block[64..] == [];
  }

  /** Hashing a concatenation continues from the state after the first part,
      whenever the first part is whole blocks. */
  lemma {:induction false} FoldConcat<S>(step: (S, seq<Byte>) -> S, s: S, a: seq<Byte>, b: seq<Byte>)
    requires |a| % 64 == 0
    ensures FoldBlocks(step, s, a + b) == FoldBlocks(step, FoldBlocks(step, s, a), b)
    decreases |a|
  {
    if |a| == 0 {
      assert a + b == b;
    } else {
      assert (a + b)[..64] == a[..64] && (a + b)[64..] == a[64..] + b;
      FoldConcat(step, step(s, a[..64]), a[64..], b);
    }
  }

  method WriteDigest(h: array<Word>) returns (out: seq<Byte>)
    requires h.Length == 8
    ensures out == Digest(h[..])
  {
    var bytes := new Byte[32](_ => 0);
    for i := 0 to 8
      invariant bytes[..4 * i] == Digest(h[..i])
    {
      hide Be32;
      var word := Be32(h[i]);
      assert h[..i + 1][..i] == h[..i];
      bytes[4 * i], bytes[4 * i + 1], bytes[4 * i + 2], bytes[4 * i + 3] := word[0], word[1], word[2], word[3];
      assert bytes[..4 * i + 4] == bytes[..4 * i] + word;
    }
    assert h[..8] == h[..];
    out := bytes[..];
  }

  // -------------------------------------------------------------------------
  // What padding guarantees.
  // -------------------------------------------------------------------------

  lemma PaddedLength(message: seq<Byte>)
    ensures |Padded(message)| == |message| + 9 + ZeroCount(|message|)
    ensures |Padded(message)| % 64 == 0
  {
    PaddedSplit(message);
    WholeBlocks(|message|);
  }

  lemma WholeBlocks(n: nat)
    ensures (n + 9 + ZeroCount(n)) % 64 == 0
  {}

  /** No shorter run of zeros gives whole blocks. */
  lemma FewestZeros(message: seq<Byte>, zeros: nat)
    requires (|message| + 1 + zeros + 8) % 64 == 0
    ensures |message| + 1 + zeros + 8 >= |Padded(message)|
  {
    PaddedSplit(message);
    LeastZeros(|message|, zeros);
  }

  lemma LeastZeros(n: nat, zeros: nat)
    requires (n + 1 + zeros + 8) % 64 == 0
    ensures zeros >= ZeroCount(n)
  {
    if zeros < ZeroCount(n) { EnoughZeros(n, zeros); }
  }

  /** Reading a word's bytes gives the word back. */
  lemma BeWordOfBe32(w: Word)
    ensures var b := Be32(w); BeWord(b[0], b[1], b[2], b[3]) == w
  {
    var second := w / 0x100;
    var third := second / 0x100;
    LowByte(w);
    LowByte(second);
    LowByte(third);
    assert w / 0x1_0000 == third && w / 0x100_0000 == third / 0x100;
  }

  lemma Be64Injective(m: nat, n: nat)
    requires m < 0x1_0000_0000_0000_0000 && n < 0x1_0000_0000_0000_0000 && Be64(m) == Be64(n)
    ensures m == n
  {
    assert Be64(m)[..4] == Be32(m / 0x1_0000_0000) && Be64(n)[..4] == Be32(n / 0x1_0000_0000);
    assert Be64(m)[4..] == Be32(m % 0x1_0000_0000) && Be64(n)[4..] == Be32(n % 0x1_0000_0000);
    BeWordOfBe32(m / 0x1_0000_0000);
    BeWordOfBe32(n / 0x1_0000_0000);
    BeWordOfBe32(m % 0x1_0000_0000);
    BeWordOfBe32(n % 0x1_0000_0000);
  }

  /** Padding is injective on all messages: past 2^61 bytes the length field
      wraps, but two messages that pad to the same bytes differ by fewer than 64
      bytes in length, so the field still tells them apart. */
  lemma PaddedInjective(a: seq<Byte>, b: seq<Byte>)
    requires Padded(a) == Padded(b)
    ensures a == b
  {
    PaddedSplit(a);
    PaddedSplit(b);
    LengthFieldInjective(|a|, |b|);
  }

  lemma LengthFieldInjective(m: nat, n: nat)
    requires m + ZeroCount(m) == n + ZeroCount(n)
    requires Be64((8 * m) % 0x1_0000_0000_0000_0000) == Be64((8 * n) % 0x1_0000_0000_0000_0000)
    ensures m == n
  {
    Be64Injective((8 * m) % 0x1_0000_0000_0000_0000, (8 * n) % 0x1_0000_0000_0000_0000);
    NearAndCongruent(m, n);
  }

  lemma NearAndCongruent(m: nat, n: nat)
    requires m < n + 64 && n < m + 64
    requires (8 * m) % 0x1_0000_0000_0000_0000 == (8 * n) % 0x1_0000_0000_0000_0000
    ensures m == n
  {}
}
