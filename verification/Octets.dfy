/** Bytes, little-endian numbers, and the growing byte vector encoders write to. */
module Octets {
  import opened Arithmetic

  type Byte = b: nat | b < 256

  function Le16(n: nat): (bytes: seq<Byte>)
    requires n < 0x1_0000
    ensures |bytes| == 2
  {
    [n % 0x100, n / 0x100]
  }

  function FromLe16(b0: Byte, b1: Byte): (n: nat)
    ensures n < 0x1_0000
  {
    b0 + 0x100 * b1
  }

  function Le32(n: nat): (bytes: seq<Byte>)
    requires n < 0x1_0000_0000
    ensures |bytes| == 4
  {
    [n % 0x100, n / 0x100 % 0x100, n / 0x1_0000 % 0x100, n / 0x100_0000]
  }

  function FromLe32(b0: Byte, b1: Byte, b2: Byte, b3: Byte): (n: nat)
    ensures n < 0x1_0000_0000
  {
    b0 + 0x100 * b1 + 0x1_0000 * b2 + 0x100_0000 * b3
  }

  /** Numbers that fit in so many bytes lie below this. */
  function Pow256(width: nat): (p: nat)
    ensures p > 0
  {
    if width == 0 then 1 else 0x100 * Pow256(width - 1)
  }

  function LeBytes(n: nat, width: nat): (bytes: seq<Byte>)
    ensures |bytes| == width
  {
    if width == 0 then [] else [n % 0x100] + LeBytes(n / 0x100, width - 1)
  }

  function FromLe(bytes: seq<Byte>): nat {
    if bytes == [] then 0 else bytes[0] + 0x100 * FromLe(bytes[1..])
  }

  /** Byte `k` of a number, the lowest first. */
  lemma {:induction false} LeBytesAt(n: nat, width: nat, k: nat)
    requires k < width
    ensures LeBytes(n, width)[k] == n / Pow256(k) % 0x100
  {
    if k > 0 {
      LeBytesAt(n / 0x100, width - 1, k - 1);
      DivideTwice(n, 0x100, Pow256(k - 1));
    } else {
      assert n / Pow256(0) == n;
    }
  }

  lemma DivideTwice(n: nat, a: nat, b: nat)
    requires a > 0 && b > 0
    ensures a * b > 0 && n / a / b == n / (a * b)
  {
    var q, r := n / a, n % a;
    var s, t := q / b, q % b;
    assert n == a * q + r && q == b * s + t;
    Distributed(a, b, s, t);
    assert n == (a * b) * s + (a * t + r);
    Bounded(a, t, b, r);
    QuotientIs(n, a * b, s, a * t + r);
  }

  lemma Distributed(a: nat, b: nat, s: nat, t: nat)
    ensures a * (b * s + t) == (a * b) * s + a * t
  {}

  lemma Bounded(a: nat, t: nat, b: nat, r: nat)
    requires t < b && r < a
    ensures 0 <= a * t + r < a * b && a * b > 0
  {
    assert a * (t + 1) <= a * b;
  }

  lemma QuotientIs(n: nat, p: nat, s: nat, r: nat)
    requires p > 0 && n == p * s + r && r < p
    ensures n / p == s
  {
    var q := n / p;
    assert n == p * q + n % p;
    if q > s { TimesMonotone(p, s + 1, q); }
    if q < s { TimesMonotone(p, q + 1, s); }
  }

  /** The 16- and 32-bit forms are the general one. */
  lemma LeForms(n: nat)
    ensures n < 0x1_0000 ==> Le16(n) == LeBytes(n, 2)
    ensures n < 0x1_0000_0000 ==> Le32(n) == LeBytes(n, 4)
  {
    assert n / 0x100 / 0x100 == n / 0x1_0000 && n / 0x1_0000 / 0x100 == n / 0x100_0000;
    assert LeBytes(n, 2) == [n % 0x100] + ([n / 0x100 % 0x100] + LeBytes(n / 0x1_0000, 0));
    var third := n / 0x1_0000;
    assert LeBytes(third, 2) == [third % 0x100] + ([third / 0x100 % 0x100] + LeBytes(third / 0x1_0000, 0));
    assert LeBytes(n, 4) == [n % 0x100] + ([n / 0x100 % 0x100] + LeBytes(third, 2));
  }

  lemma {:induction false} LeBytesRoundTrip(n: nat, width: nat)
    requires n < Pow256(width)
    ensures FromLe(LeBytes(n, width)) == n
  {
    if width > 0 {
      LeBytesRoundTrip(n / 0x100, width - 1);
      assert LeBytes(n, width)[1..] == LeBytes(n / 0x100, width - 1);
    }
  }

  lemma {:induction false} FromLeRoundTrip(bytes: seq<Byte>)
    ensures FromLe(bytes) < Pow256(|bytes|)
    ensures LeBytes(FromLe(bytes), |bytes|) == bytes
  {
    if bytes != [] {
      FromLeRoundTrip(bytes[1..]);
      var rest := FromLe(bytes[1..]);
      assert (bytes[0] + 0x100 * rest) % 0x100 == bytes[0] && (bytes[0] + 0x100 * rest) / 0x100 == rest;
    }
  }

  lemma Le16RoundTrip(n: nat)
    requires n < 0x1_0000
    ensures var b := Le16(n); FromLe16(b[0], b[1]) == n
  {}

  lemma FromLe16RoundTrip(b0: Byte, b1: Byte)
    ensures Le16(FromLe16(b0, b1)) == [b0, b1]
  {}

  lemma Le32RoundTrip(n: nat)
    requires n < 0x1_0000_0000
    ensures var b := Le32(n); FromLe32(b[0], b[1], b[2], b[3]) == n
  {
    var second := n / 0x100;
    var third := second / 0x100;
    LowByte(n);
    LowByte(second);
    LowByte(third);
    assert n / 0x1_0000 == third && n / 0x100_0000 == third / 0x100;
  }

  lemma LowByte(n: nat)
    ensures n == n % 0x100 + 0x100 * (n / 0x100)
  {}

  /** Bytes set right after a stretch lengthen it. */
  lemma Appended(was: seq<Byte>, now: seq<Byte>, start: nat, offset: nat, more: seq<Byte>)
    requires start <= offset && offset + |more| <= |was| == |now|
    requires now[..offset] == was[..offset] && now[offset..offset + |more|] == more
    ensures now[..start] == was[..start]
    ensures now[start..offset + |more|] == was[start..offset] + more
  {
    assert now[..start] == now[..offset][..start] && was[..start] == was[..offset][..start];
    assert now[start..offset] == now[..offset][start..] && was[start..offset] == was[..offset][start..];
  }

  /** A vector of bytes that encoders append to. */
  class ByteVec {
    var bytes: seq<Byte>

    constructor ()
      ensures bytes == []
    {
      bytes := [];
    }

    method Push(b: Byte)
      modifies this
      ensures bytes == old(bytes) + [b]
    {
      bytes := bytes + [b];
    }

    method Extend(more: seq<Byte>)
      modifies this
      ensures bytes == old(bytes) + more
    {
      bytes := bytes + more;
    }
  }
}
