/** Strings as the clients are given them, in UTF-16 code units, and the two ways
    they are encoded in UTF-8: one substitutes what has no encoding, one refuses it. */
module Strings {
  import opened Orders
  import opened Octets

  type CodeUnit = u: nat | u < 0x1_0000
  type CodePoint = c: nat | c < 0x11_0000

  const REPLACEMENT: CodePoint := 0xFFFD

  /** Half of a pair; alone it stands for nothing. */
  predicate IsSurrogate(c: CodePoint) { 0xD800 <= c < 0xE000 }

  function Paired(high: nat, low: nat): CodePoint
    requires 0xD800 <= high < 0xDC00 && 0xDC00 <= low < 0xE000
  {
    0x1_0000 + (high - 0xD800) * 0x400 + (low - 0xDC00)
  }

  /** A high half followed by a low half is one code point, any other unit its own. */
  function CodePoints(units: seq<CodeUnit>): seq<CodePoint> {
    if units == [] then []
    else if |units| >= 2 && 0xD800 <= units[0] < 0xDC00 && 0xDC00 <= units[1] < 0xE000 then
      [Paired(units[0], units[1])] + CodePoints(units[2..])
    else [units[0]] + CodePoints(units[1..])
  }

  /** No half stands alone. */
  predicate WellFormed(units: seq<CodeUnit>) {
    forall c :: c in CodePoints(units) ==> !IsSurrogate(c)
  }

  predicate High(u: CodeUnit) { 0xD800 <= u <= 0xDBFF }

  predicate Low(u: CodeUnit) { 0xDC00 <= u <= 0xDFFF }

  predicate PairedAt(units: seq<CodeUnit>, k: nat)
    requires k < |units|
  {
    && (High(units[k]) ==> k + 1 < |units| && Low(units[k + 1]))
    && (Low(units[k]) ==> k > 0 && High(units[k - 1]))
  }

  /** Each high half has a low half right behind it, and each low half a high one before it. */
  predicate HalvesPaired(units: seq<CodeUnit>) {
    forall k :: 0 <= k < |units| ==> PairedAt(units, k)
  }

  lemma PairedLater(units: seq<CodeUnit>, n: nat)
    requires 0 < n <= |units| && !High(units[n - 1]) && forall k :: 0 <= k < n ==> PairedAt(units, k)
    ensures HalvesPaired(units) <==> HalvesPaired(units[n..])
  {
    var rest := units[n..];
    assert forall k :: 0 <= k < |rest| ==> rest[k] == units[n + k];
    forall k | 0 <= k < |rest| ensures PairedAt(rest, k) <==> PairedAt(units, n + k) {
      assert rest[k] == units[n + k];
      assert k > 0 ==> rest[k - 1] == units[n + k - 1];
      assert k + 1 < |rest| ==> rest[k + 1] == units[n + k + 1];
    }
    hide PairedAt;
    if HalvesPaired(rest) {
      forall k | 0 <= k < |units| ensures PairedAt(units, k) { if k >= n { assert PairedAt(rest, k - n); } }
    }
  }

  /** A string is well formed exactly when its halves are paired. */
  lemma {:induction false} WellFormedExact(units: seq<CodeUnit>)
    ensures WellFormed(units) <==> HalvesPaired(units)
  {
    if units != [] {
      var points := CodePoints(units);
      if |units| >= 2 && High(units[0]) && Low(units[1]) {
        WellFormedExact(units[2..]);
        assert PairedAt(units, 0) && PairedAt(units, 1);
        PairedLater(units, 2);
        assert points == [Paired(units[0], units[1])] + CodePoints(units[2..]);
        assert WellFormed(units) <==> WellFormed(units[2..]);
      } else {
        WellFormedExact(units[1..]);
        assert points == [units[0]] + CodePoints(units[1..]);
        assert units[0] in points;
        if High(units[0]) || Low(units[0]) {
          var first := units[0];
          assert !PairedAt(units, 0) && IsSurrogate(first);
        } else {
          assert PairedAt(units, 0);
          PairedLater(units, 1);
          assert WellFormed(units) <==> WellFormed(units[1..]);
        }
      }
    }
  }

  /** The low six bits after `shift` of them, marked as a continuation byte. */
  function Continuation(c: CodePoint, shift: nat): Byte
    requires shift > 0
  {
    0x80 + c / shift % 0x40
  }

  /** One to four bytes, as section 3 of RFC 3629 lays them out. */
  function PointBytes(c: CodePoint): seq<Byte> {
    if c < 0x80 then [c]
    else if c < 0x800 then [0xC0 + c / 0x40, Continuation(c, 1)]
    else if c < 0x1_0000 then [0xE0 + c / 0x1000, Continuation(c, 0x40), Continuation(c, 1)]
    else [0xF0 + c / 0x4_0000, Continuation(c, 0x1000), Continuation(c, 0x40), Continuation(c, 1)]
  }

  function PointEncoder(): CodePoint -> seq<Byte> { (c: CodePoint) => PointBytes(c) }

  /** `TextEncoder`: the replacement character for every half that stands alone. */
  function LossyEncoder(): CodePoint -> seq<Byte> {
    (c: CodePoint) => PointBytes(if IsSurrogate(c) then REPLACEMENT else c)
  }

  function Lossy(units: seq<CodeUnit>): seq<Byte> { FlatMap(CodePoints(units), LossyEncoder()) }

  /** `encode(errors="strict")`: `None` is the error raised. */
  function Strict(units: seq<CodeUnit>): Option<seq<Byte>> {
    if WellFormed(units) then Some(FlatMap(CodePoints(units), PointEncoder())) else None
  }

  lemma {:induction false} SameOnScalars(points: seq<CodePoint>)
    requires forall c :: c in points ==> !IsSurrogate(c)
    ensures FlatMap(points, LossyEncoder()) == FlatMap(points, PointEncoder())
  {
    if points != [] {
      assert points[|points| - 1] in points;
      SameOnScalars(points[..|points| - 1]);
    }
  }

  /** Where the strict encoding exists the lossy one is the same. */
  lemma StrictIsLossy(units: seq<CodeUnit>)
    ensures Strict(units) == if WellFormed(units) then Some(Lossy(units)) else None
  {
    if WellFormed(units) { SameOnScalars(CodePoints(units)); }
  }

  // -------------------------------------------------------------------------
  // The strict encoding is UTF-8, and loses nothing.
  // -------------------------------------------------------------------------

  predicate IsContinuation(b: Byte) { 0x80 <= b < 0xC0 }

  /** What a byte says beyond its mark. */
  function Payload(b: nat, mark: nat): nat
    requires mark <= b
  {
    b - mark
  }

  /** The code point at the front of UTF-8 bytes, and how many bytes it takes. */
  function PointAt(b: seq<Byte>): Option<(nat, nat)> {
    if b == [] then None
    else if b[0] < 0x80 then Some((b[0], 1))
    else if 0xC0 <= b[0] < 0xE0 && |b| >= 2 && IsContinuation(b[1]) then
      Some((Payload(b[0], 0xC0) * 0x40 + Payload(b[1], 0x80), 2))
    else if 0xE0 <= b[0] < 0xF0 && |b| >= 3 && IsContinuation(b[1]) && IsContinuation(b[2]) then
      Some((Payload(b[0], 0xE0) * 0x1000 + Payload(b[1], 0x80) * 0x40 + Payload(b[2], 0x80), 3))
    else if 0xF0 <= b[0] && |b| >= 4 && IsContinuation(b[1]) && IsContinuation(b[2]) && IsContinuation(b[3]) then
      Some((Payload(b[0], 0xF0) * 0x4_0000 + Payload(b[1], 0x80) * 0x1000 + Payload(b[2], 0x80) * 0x40
            + Payload(b[3], 0x80), 4))
    else None
  }

  lemma Sixes(c: nat)
    ensures c == c / 0x40 * 0x40 + c % 0x40 && c / 0x40 / 0x40 == c / 0x1000
    ensures c / 0x1000 / 0x40 == c / 0x4_0000
  {}

  /** A code point is read back in front of anything. */
  lemma PointReads(c: CodePoint, rest: seq<Byte>)
    ensures PointAt(PointBytes(c) + rest) == Some((c, |PointBytes(c)|))
  {
    Sixes(c);
    Sixes(c / 0x40);
    Sixes(c / 0x1000);
    var b := PointBytes(c) + rest;
    assert forall k :: 0 <= k < |PointBytes(c)| ==> b[k] == PointBytes(c)[k];
  }

  lemma {:induction false} EncodedFront(points: seq<CodePoint>)
    requires points != []
    ensures FlatMap(points, PointEncoder()) == PointBytes(points[0]) + FlatMap(points[1..], PointEncoder())
  {
    var n := |points| - 1;
    if n == 0 {
      assert points[..0] == [] && points[1..] == [];
    } else {
      EncodedFront(points[..n]);
      assert points[..n][1..] == points[1..][..n - 1] && points[1..][n - 1] == points[n];
      Assoc(PointBytes(points[0]), FlatMap(points[..n][1..], PointEncoder()), PointBytes(points[n]));
    }
  }

  lemma {:induction false} EncodingInjective(a: seq<CodePoint>, b: seq<CodePoint>)
    requires FlatMap(a, PointEncoder()) == FlatMap(b, PointEncoder())
    ensures a == b
    decreases |a|
  {
    hide PointBytes, PointAt, FlatMap;
    if a != [] && b != [] {
      EncodedFront(a);
      EncodedFront(b);
      PointReads(a[0], FlatMap(a[1..], PointEncoder()));
      PointReads(b[0], FlatMap(b[1..], PointEncoder()));
      assert FlatMap(a, PointEncoder())[|PointBytes(a[0])|..] == FlatMap(a[1..], PointEncoder());
      assert FlatMap(b, PointEncoder())[|PointBytes(b[0])|..] == FlatMap(b[1..], PointEncoder());
      EncodingInjective(a[1..], b[1..]);
      assert a == [a[0]] + a[1..] && b == [b[0]] + b[1..];
    } else {
      NotEmpty(a);
      NotEmpty(b);
    }
  }

  lemma NotEmpty(points: seq<CodePoint>)
    ensures FlatMap(points, PointEncoder()) == [] <==> points == []
  {}

  function UnitsOf(c: CodePoint): seq<CodeUnit> {
    if c < 0x1_0000 then [c] else [0xD800 + (c - 0x1_0000) / 0x400, 0xDC00 + (c - 0x1_0000) % 0x400]
  }

  function Units(points: seq<CodePoint>): seq<CodeUnit> {
    if points == [] then [] else UnitsOf(points[0]) + Units(points[1..])
  }

  /** Taking a string apart into code points loses nothing. */
  lemma {:induction false} CodePointsReads(units: seq<CodeUnit>)
    ensures Units(CodePoints(units)) == units
  {
    if units != [] {
      var points := CodePoints(units);
      if |units| >= 2 && 0xD800 <= units[0] < 0xDC00 && 0xDC00 <= units[1] < 0xE000 {
        CodePointsReads(units[2..]);
        assert points[1..] == CodePoints(units[2..]);
        PairedApart(units[0], units[1]);
        assert units == [units[0], units[1]] + units[2..];
      } else {
        CodePointsReads(units[1..]);
        assert points[1..] == CodePoints(units[1..]);
        assert units == [units[0]] + units[1..];
      }
    }
  }

  lemma PairedApart(high: CodeUnit, low: CodeUnit)
    requires 0xD800 <= high < 0xDC00 && 0xDC00 <= low < 0xE000
    ensures Paired(high, low) >= 0x1_0000 && UnitsOf(Paired(high, low)) == [high, low]
  {}

  /** Different well-formed strings are never sent as the same bytes. */
  lemma StrictInjective(a: seq<CodeUnit>, b: seq<CodeUnit>)
    requires Strict(a).Some? && Strict(a) == Strict(b)
    ensures a == b
  {
    EncodingInjective(CodePoints(a), CodePoints(b));
    CodePointsReads(a);
    CodePointsReads(b);
  }
}
