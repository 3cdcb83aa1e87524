/** Dynamic tails: field codecs composed in declaration order into one codec,
    written into and read from a caller's buffer. */
module TailCodec {
  import opened Orders
  import opened Arithmetic
  import opened Octets
  import opened Wire

  datatype TailError = AccountDataTooSmall | InvalidAccountData

  /** How values of one field type are encoded: their bytes, their decoder with
      the count consumed, the largest encoding, and the values the type holds. */
  datatype FieldCodec<!V> = FieldCodec(
    enc: V -> seq<Byte>, dec: seq<Byte> -> Option<(V, nat)>, max: nat, holds: V -> bool)

  /** A codec inverts its own encoding in front of any suffix, stays within its
      maximum, and never claims to consume more than it was given. */
  ghost predicate Lawful<V(!new)>(c: FieldCodec<V>) {
    && (forall v: V :: c.holds(v) ==> Inverts(c, v))
    && (forall v: V :: c.holds(v) ==> |c.enc(v)| <= c.max)
    && (forall input: seq<Byte> :: StaysInside(c, input))
  }

  ghost predicate Inverts<V>(c: FieldCodec<V>, v: V) {
    forall rest: seq<Byte> :: c.dec(c.enc(v) + rest) == Some((v, |c.enc(v)|))
  }

  predicate StaysInside<V>(c: FieldCodec<V>, input: seq<Byte>) {
    match c.dec(input) case Some((_, consumed)) => consumed <= |input| case None => true
  }

  /** Only encodings are accepted: whatever is decoded is a value the type holds,
      and encodes to the bytes it was read from. */
  ghost predicate Exact<V>(c: FieldCodec<V>) {
    forall input: seq<Byte> :: c.dec(input).Some? ==> Rewrites(c, input, c.dec(input).value)
  }

  predicate Rewrites<V>(c: FieldCodec<V>, input: seq<Byte>, read: (V, nat)) {
    read.1 <= |input| && c.holds(read.0) && c.enc(read.0) == input[..read.1]
  }

  /** The maximum is reached by some value, so a buffer of that size is no waste. */
  ghost predicate Tight<V(!new)>(c: FieldCodec<V>) {
    exists v: V :: c.holds(v) && |c.enc(v)| == c.max
  }

  // -------------------------------------------------------------------------
  // The composed codec.
  // -------------------------------------------------------------------------

  function TailBytes<V>(fields: seq<FieldCodec<V>>, values: seq<V>): seq<Byte>
    requires |fields| == |values|
  {
    if fields == [] then []
    else var n := |fields| - 1; TailBytes(fields[..n], values[..n]) + fields[n].enc(values[n])
  }

  /** One more field, read at the cursor. */
  function NextField<V>(c: FieldCodec<V>, input: seq<Byte>, done: (seq<V>, nat)): Option<(seq<V>, nat)> {
    if done.1 > |input| then None
    else match c.dec(input[done.1..])
         case None => None
         case Some(read) => Some((done.0 + [read.0], done.1 + read.1))
  }

  function TailDecoded<V>(fields: seq<FieldCodec<V>>, input: seq<Byte>): Option<(seq<V>, nat)> {
    if fields == [] then Some(([], 0))
    else match TailDecoded(fields[..|fields| - 1], input)
         case None => None
         case Some(done) => NextField(fields[|fields| - 1], input, done)
  }

  function TailMax<V>(fields: seq<FieldCodec<V>>): nat {
    if fields == [] then 0 else TailMax(fields[..|fields| - 1]) + fields[|fields| - 1].max
  }

  predicate TailHolds<V>(fields: seq<FieldCodec<V>>, values: seq<V>) {
    |fields| == |values| && forall k :: 0 <= k < |fields| ==> fields[k].holds(values[k])
  }

  function Composed<V>(fields: seq<FieldCodec<V>>): FieldCodec<seq<V>> {
    FieldCodec(
      (values: seq<V>) => if |values| == |fields| then TailBytes(fields, values) else [],
      (input: seq<Byte>) => TailDecoded(fields, input),
      TailMax(fields),
      (values: seq<V>) => TailHolds(fields, values))
  }

  // -------------------------------------------------------------------------
  // The generated code, over a caller's buffer.
  // -------------------------------------------------------------------------

  /** One field's `encode` into what is left of the buffer. */
  method EncodeField<V>(c: FieldCodec<V>, v: V, out: array<Byte>, cursor: nat) returns (r: Result<nat, TailError>)
    requires cursor <= out.Length
    modifies out
    ensures out[..cursor] == old(out[..cursor])
    ensures if |c.enc(v)| <= out.Length - cursor
      then && r == Ok(|c.enc(v)|)
           && out[cursor..cursor + |c.enc(v)|] == c.enc(v)
           && out[cursor + |c.enc(v)|..] == old(out[cursor + |c.enc(v)|..])
      else r == Err(AccountDataTooSmall)
  {
    var bytes := c.enc(v);
    if out.Length - cursor < |bytes| { return Err(AccountDataTooSmall); }
    for k := 0 to |bytes|
      invariant out[..cursor] == old(out[..cursor])
      invariant out[cursor..cursor + k] == bytes[..k]
      invariant out[cursor + |bytes|..] == old(out[cursor + |bytes|..])
    {
      out[cursor + k] := bytes[k];
      assert out[cursor..cursor + k + 1] == out[cursor..cursor + k] + [bytes[k]];
    }
    r := Ok(|bytes|);
  }

  lemma TailBytesNext<V>(fields: seq<FieldCodec<V>>, values: seq<V>, k: nat)
    requires |fields| == |values| && k < |fields|
    ensures TailBytes(fields[..k + 1], values[..k + 1])
         == TailBytes(fields[..k], values[..k]) + fields[k].enc(values[k])
  {
    assert fields[..k + 1][..k] == fields[..k] && values[..k + 1][..k] == values[..k];
  }

  lemma {:induction false} TailBytesGrow<V>(fields: seq<FieldCodec<V>>, values: seq<V>, k: nat)
    requires |fields| == |values| && k <= |fields|
    ensures |TailBytes(fields[..k], values[..k])| <= |TailBytes(fields, values)|
  {
    if k < |fields| {
      var n := |fields| - 1;
      assert fields[..n][..k] == fields[..k] && values[..n][..k] == values[..k];
      TailBytesGrow(fields[..n], values[..n], k);
    } else {
      assert fields[..k] == fields && values[..k] == values;
    }
  }

  lemma FieldWritten(was: seq<Byte>, now: seq<Byte>, cursor: nat, bytes: seq<Byte>)
    requires cursor + |bytes| <= |was| == |now|
    requires now[..cursor] == was[..cursor] && now[cursor..cursor + |bytes|] == bytes
    requires now[cursor + |bytes|..] == was[cursor + |bytes|..]
    ensures now[..cursor + |bytes|] == was[..cursor] + bytes
    ensures now[cursor + |bytes|..] == was[cursor..][|bytes|..]
  {}

  /** Field `k` is the first that does not fit, and those before it are written. */
  predicate StoppedAt<V>(fields: seq<FieldCodec<V>>, values: seq<V>, out: seq<Byte>, k: nat)
    requires |fields| == |values|
  {
    && k < |fields|
    && |TailBytes(fields[..k], values[..k])| <= |out| < |TailBytes(fields[..k + 1], values[..k + 1])|
    && out[..|TailBytes(fields[..k], values[..k])|] == TailBytes(fields[..k], values[..k])
  }

  /** Succeeds exactly when the whole encoding fits, which it then puts at the
      front of the buffer, leaving the rest as it was. */
  method EncodeTail<V>(fields: seq<FieldCodec<V>>, values: seq<V>, out: array<Byte>) returns (r: Result<nat, TailError>)
    requires TailHolds(fields, values)
    modifies out
    ensures var bytes := TailBytes(fields, values);
      if |bytes| <= out.Length
      then r == Ok(|bytes|) && out[..|bytes|] == bytes && out[|bytes|..] == old(out[|bytes|..])
      else r == Err(AccountDataTooSmall) && exists k :: StoppedAt(fields, values, out[..], k)
  {
    var cursor := 0;
    for k := 0 to |fields|
      invariant cursor == |TailBytes(fields[..k], values[..k])| <= out.Length
      invariant out[..cursor] == TailBytes(fields[..k], values[..k])
      invariant out[cursor..] == old(out[cursor..])
    {
      hide TailBytes;
      TailBytesNext(fields, values, k);
      TailBytesGrow(fields, values, k + 1);
      ghost var was := out[..];
      ghost var done, bytes := TailBytes(fields[..k], values[..k]), fields[k].enc(values[k]);
      assert was[..cursor] == done && was[cursor..] == old(out[cursor..]);
      var written := EncodeField(fields[k], values[k], out, cursor);
      if written.Err? {
        assert StoppedAt(fields, values, out[..], k) by { assert out[..][..cursor] == out[..cursor]; }
        return written;
      }
      FieldWritten(was, out[..], cursor, bytes);
      cursor := cursor + written.value;
    }
    assert fields[..|fields|] == fields && values[..|values|] == values;
    r := Ok(cursor);
  }

  lemma TailDecodedNext<V>(fields: seq<FieldCodec<V>>, input: seq<Byte>, k: nat)
    requires k < |fields|
    ensures TailDecoded(fields[..k + 1], input)
         == match TailDecoded(fields[..k], input) case None => None case Some(done) => NextField(fields[k], input, done)
  {
    assert fields[..k + 1][..k] == fields[..k];
  }

  lemma {:induction false} TailFails<V>(fields: seq<FieldCodec<V>>, input: seq<Byte>, k: nat)
    requires k <= |fields| && TailDecoded(fields[..k], input).None?
    ensures TailDecoded(fields, input).None?
  {
    if k < |fields| {
      assert fields[..|fields| - 1][..k] == fields[..k];
      TailFails(fields[..|fields| - 1], input, k);
    } else {
      assert fields[..k] == fields;
    }
  }

  /** With lawful fields the cursor never leaves the input, so no slice is out of bounds. */
  method DecodeTail<V(!new)>(fields: seq<FieldCodec<V>>, input: seq<Byte>) returns (r: Result<(seq<V>, nat), TailError>)
    requires forall c :: c in fields ==> Lawful(c)
    ensures r == match TailDecoded(fields, input) case Some(p) => Ok(p) case None => Err(InvalidAccountData)
    ensures r.Ok? ==> r.value.1 <= |input|
  {
    var cursor := 0;
    var values := [];
    for k := 0 to |fields|
      invariant cursor <= |input|
      invariant TailDecoded(fields[..k], input) == Some((values, cursor))
    {
      TailDecodedNext(fields, input, k);
      assert fields[k] in fields && Lawful(fields[k]);
      match fields[k].dec(input[cursor..]) {
        case None =>
          TailFails(fields, input, k + 1);
          return Err(InvalidAccountData);
        case Some((v, consumed)) =>
          assert StaysInside(fields[k], input[cursor..]);
          values := values + [v];
          cursor := cursor + consumed;
      }
    }
    assert fields[..|fields|] == fields;
    r := Ok((values, cursor));
  }

  // -------------------------------------------------------------------------
  // Laws carry over to the composition.
  // -------------------------------------------------------------------------

  lemma NextInverts<V(!new)>(c: FieldCodec<V>, v: V, last: seq<Byte>, init: seq<Byte>, rest: seq<Byte>, values: seq<V>)
    requires Inverts(c, v) && last == c.enc(v)
    ensures NextField(c, init + (last + rest), (values, |init|)) == Some((values + [v], |init| + |last|))
  {
    assert (init + (last + rest))[|init|..] == last + rest;
  }

  lemma TailDecodedLast<V>(fields: seq<FieldCodec<V>>, input: seq<Byte>, done: (seq<V>, nat))
    requires fields != [] && TailDecoded(fields[..|fields| - 1], input) == Some(done)
    ensures TailDecoded(fields, input) == NextField(fields[|fields| - 1], input, done)
  {}

  lemma TailInvertsLast<V(!new)>(fields: seq<FieldCodec<V>>, c: FieldCodec<V>, init: seq<Byte>, last: seq<Byte>,
                                 rest: seq<Byte>, values: seq<V>, v: V)
    requires fields != [] && c == fields[|fields| - 1] && Inverts(c, v) && last == c.enc(v)
    requires TailDecoded(fields[..|fields| - 1], init + (last + rest)) == Some((values, |init|))
    ensures TailDecoded(fields, (init + last) + rest) == Some((values + [v], |init + last|))
  {
    Assoc(init, last, rest);
    TailDecodedLast(fields, init + (last + rest), (values, |init|));
    hide Inverts, TailDecoded;
    NextInverts(c, v, last, init, rest, values);
  }

  lemma {:induction false} TailInverts<V(!new)>(fields: seq<FieldCodec<V>>, values: seq<V>, rest: seq<Byte>)
    requires |fields| == |values| && forall k :: 0 <= k < |fields| ==> Inverts(fields[k], values[k])
    ensures TailDecoded(fields, TailBytes(fields, values) + rest) == Some((values, |TailBytes(fields, values)|))
  {
    if fields == [] {
      assert TailBytes(fields, values) + rest == rest;
    } else {
      hide Inverts, TailDecoded;
      var n := |fields| - 1;
      var init, last := TailBytes(fields[..n], values[..n]), fields[n].enc(values[n]);
      TailInverts(fields[..n], values[..n], last + rest);
      TailInvertsLast(fields, fields[n], init, last, rest, values[..n], values[n]);
      assert TailBytes(fields, values) == init + last;
      assert values == values[..n] + [values[n]];
    }
  }

  lemma {:induction false} TailWithinMax<V(!new)>(fields: seq<FieldCodec<V>>, values: seq<V>)
    requires (forall c :: c in fields ==> Lawful(c)) && TailHolds(fields, values)
    ensures |TailBytes(fields, values)| <= TailMax(fields)
  {
    if fields != [] {
      var n := |fields| - 1;
      assert forall c :: c in fields[..n] ==> c in fields;
      TailWithinMax(fields[..n], values[..n]);
      assert fields[n] in fields && Lawful(fields[n]) && fields[n].holds(values[n]);
    }
  }

  lemma {:induction false} TailStaysInside<V(!new)>(fields: seq<FieldCodec<V>>, input: seq<Byte>)
    requires (forall c :: c in fields ==> Lawful(c)) && TailDecoded(fields, input).Some?
    ensures TailDecoded(fields, input).value.1 <= |input|
  {
    if fields != [] {
      var n := |fields| - 1;
      assert forall c :: c in fields[..n] ==> c in fields;
      TailStaysInside(fields[..n], input);
      var cursor := TailDecoded(fields[..n], input).value.1;
      assert fields[n] in fields && Lawful(fields[n]);
      assert StaysInside(fields[n], input[cursor..]);
    }
  }

  /** Codecs compose: any list of lawful field codecs makes a lawful codec, so
      tails can themselves be fields. */
  lemma ComposedLawful<V(!new)>(fields: seq<FieldCodec<V>>)
    requires forall c :: c in fields ==> Lawful(c)
    ensures Lawful(Composed(fields))
  {
    var c := Composed(fields);
    forall values | c.holds(values) ensures Inverts(c, values) {
      forall rest ensures c.dec(c.enc(values) + rest) == Some((values, |c.enc(values)|)) {
        assert forall k :: 0 <= k < |fields| ==> fields[k] in fields;
        TailInverts(fields, values, rest);
      }
    }
    forall values | c.holds(values) ensures |c.enc(values)| <= c.max { TailWithinMax(fields, values); }
    forall input ensures StaysInside(c, input) {
      if c.dec(input).Some? { TailStaysInside(fields, input); }
    }
  }

  lemma NextRewrites<V>(c: FieldCodec<V>, input: seq<Byte>, done: (seq<V>, nat), init: seq<Byte>)
    requires Exact(c) && done.1 <= |input| && init == input[..done.1] && NextField(c, input, done).Some?
    ensures var next := NextField(c, input, done).value;
      && done.1 <= next.1 <= |input| && |next.0| == |done.0| + 1 && next.0[..|done.0|] == done.0
      && c.holds(next.0[|done.0|]) && init + c.enc(next.0[|done.0|]) == input[..next.1]
  {
    var read := c.dec(input[done.1..]).value;
    assert Rewrites(c, input[done.1..], read);
    assert input[..done.1] + input[done.1..][..read.1] == input[..done.1 + read.1];
  }

  lemma {:induction false} TailRewrites<V>(fields: seq<FieldCodec<V>>, input: seq<Byte>)
    requires (forall c :: c in fields ==> Exact(c)) && TailDecoded(fields, input).Some?
    ensures var read := TailDecoded(fields, input).value;
      read.1 <= |input| && TailHolds(fields, read.0) && TailBytes(fields, read.0) == input[..read.1]
  {
    hide Exact, NextField;
    if fields != [] {
      var n := |fields| - 1;
      assert forall c :: c in fields[..n] ==> c in fields;
      TailRewrites(fields[..n], input);
      var done := TailDecoded(fields[..n], input).value;
      assert fields[n] in fields;
      NextRewrites(fields[n], input, done, TailBytes(fields[..n], done.0));
      var values := TailDecoded(fields, input).value.0;
      assert values[..n] == done.0;
    }
  }

  /** A composition of codecs that accept only encodings accepts only encodings. */
  lemma ComposedExact<V>(fields: seq<FieldCodec<V>>)
    requires forall c :: c in fields ==> Exact(c)
    ensures Exact(Composed(fields))
  {
    var c := Composed(fields);
    forall input: seq<Byte> | c.dec(input).Some? ensures Rewrites(c, input, c.dec(input).value) {
      TailRewrites(fields, input);
    }
  }

  /** Values that together reach the maximum. */
  lemma {:induction false} TailReachesMax<V(!new)>(fields: seq<FieldCodec<V>>) returns (values: seq<V>)
    requires forall c :: c in fields ==> Tight(c)
    ensures TailHolds(fields, values) && |TailBytes(fields, values)| == TailMax(fields)
  {
    if fields == [] { return []; }
    var n := |fields| - 1;
    assert fields[n] in fields && forall c :: c in fields[..n] ==> c in fields;
    var init := TailReachesMax(fields[..n]);
    var v :| fields[n].holds(v) && |fields[n].enc(v)| == fields[n].max;
    values := init + [v];
    assert values[..n] == init;
  }

  lemma ComposedTight<V(!new)>(fields: seq<FieldCodec<V>>)
    requires forall c :: c in fields ==> Tight(c)
    ensures Tight(Composed(fields))
  {
    var values := TailReachesMax(fields);
    assert Composed(fields).holds(values);
  }

  // -------------------------------------------------------------------------
  // The codecs of the field types.
  // -------------------------------------------------------------------------

  /** A fixed number of bytes: arrays, addresses and little-endian integers. */
  function RawCodec(width: nat): FieldCodec<seq<Byte>> {
    FieldCodec((bytes: seq<Byte>) => bytes,
               (input: seq<Byte>) => if |input| < width then None else Some((input[..width], width)),
               width, (bytes: seq<Byte>) => |bytes| == width)
  }

  lemma RawLawful(width: nat)
    ensures Lawful(RawCodec(width))
  {
    forall bytes: seq<Byte>, rest: seq<Byte> | |bytes| == width ensures (bytes + rest)[..width] == bytes {}
  }

  lemma RawExact(width: nat)
    ensures Exact(RawCodec(width))
  {}

  lemma RawTight(width: nat)
    ensures Tight(RawCodec(width))
  {
    assert RawCodec(width).holds(Filler(width));
  }

  function Filler(n: nat): (r: seq<Byte>)
    ensures |r| == n
  {
    seq(n, _ => 0)
  }

  lemma PrefixRoundTrip(n: nat)
    requires n < 0x1_0000
    ensures FromLe16(Prefix(n)[0], Prefix(n)[1]) == n
  {
    hide Le16, FromLe16;
    assert n % 0x1_0000 == n;
    Le16RoundTrip(n);
  }

  /** A bounded string: a 16-bit count, then that many bytes, which are not
      checked for UTF-8 until they are read as text. */
  function StringCodec(cap: nat): FieldCodec<seq<Byte>> {
    FieldCodec((text: seq<Byte>) => Prefix(|text|) + text,
               (input: seq<Byte>) =>
                 if |input| < 2 then None
                 else
                   var len := FromLe16(input[0], input[1]);
                   if len > cap || |input| < 2 + len then None else Some((input[2..2 + len], 2 + len)),
               2 + cap, (text: seq<Byte>) => |text| <= cap && |text| < 0x1_0000)
  }

  lemma StringLawful(cap: nat)
    ensures Lawful(StringCodec(cap))
  {
    hide Prefix, FromLe16;
    var c := StringCodec(cap);
    forall text, rest: seq<Byte> | c.holds(text) ensures c.dec(c.enc(text) + rest) == Some((text, |c.enc(text)|)) {
      PrefixRoundTrip(|text|);
      Assoc(Prefix(|text|), text, rest);
      assert c.enc(text) + rest == Prefix(|text|) + (text + rest);
      assert (c.enc(text) + rest)[2..2 + |text|] == text;
    }
  }

  lemma PrefixOfCount(input: seq<Byte>)
    requires |input| >= 2
    ensures Prefix(FromLe16(input[0], input[1])) == input[..2]
  {
    hide Le16, FromLe16;
    FromLe16RoundTrip(input[0], input[1]);
    assert FromLe16(input[0], input[1]) % 0x1_0000 == FromLe16(input[0], input[1]);
  }

  /** A string is accepted only within its capacity. */
  lemma StringExact(cap: nat)
    ensures Exact(StringCodec(cap))
  {
    hide Prefix, FromLe16;
    var c := StringCodec(cap);
    forall input: seq<Byte> | c.dec(input).Some? ensures Rewrites(c, input, c.dec(input).value) {
      PrefixOfCount(input);
      var len := FromLe16(input[0], input[1]);
      assert input[..2] + input[2..2 + len] == input[..2 + len];
    }
  }

  lemma StringTight(cap: nat)
    requires cap < 0x1_0000
    ensures Tight(StringCodec(cap))
  {
    assert StringCodec(cap).holds(Filler(cap)) && |StringCodec(cap).enc(Filler(cap))| == 2 + cap;
  }

  function Copies<V>(c: FieldCodec<V>, n: nat): (r: seq<FieldCodec<V>>)
    ensures |r| == n && forall k :: 0 <= k < n ==> r[k] == c
  {
    seq(n, _ => c)
  }

  function VecDecoded<V>(c: FieldCodec<V>, cap: nat, input: seq<Byte>): Option<(seq<V>, nat)> {
    if |input| < 2 || FromLe16(input[0], input[1]) > cap then None
    else match TailDecoded(Copies(c, FromLe16(input[0], input[1])), input[2..])
         case None => None
         case Some(read) => Some((read.0, 2 + read.1))
  }

  /** A bounded vector: a 16-bit count, then that many elements in a row. */
  function VecCodec<V>(c: FieldCodec<V>, cap: nat): FieldCodec<seq<V>> {
    FieldCodec((items: seq<V>) => Prefix(|items|) + TailBytes(Copies(c, |items|), items),
               (input: seq<Byte>) => VecDecoded(c, cap, input),
               2 + cap * c.max,
               (items: seq<V>) =>
                 |items| <= cap && |items| < 0x1_0000 && forall k :: 0 <= k < |items| ==> c.holds(items[k]))
  }

  lemma {:induction false} CopiesMax<V>(c: FieldCodec<V>, n: nat)
    ensures TailMax(Copies(c, n)) == n * c.max
  {
    if n > 0 {
      assert Copies(c, n)[..n - 1] == Copies(c, n - 1);
      CopiesMax(c, n - 1);
      assert n * c.max == (n - 1) * c.max + c.max;
    }
  }

  lemma VecReads<V>(c: FieldCodec<V>, cap: nat, n: nat, items: seq<V>, body: seq<Byte>, rest: seq<Byte>)
    requires n <= cap && n < 0x1_0000 && TailDecoded(Copies(c, n), body + rest) == Some((items, |body|))
    ensures VecDecoded(c, cap, Prefix(n) + body + rest) == Some((items, 2 + |body|))
  {
    hide Prefix, FromLe16, TailDecoded, Copies;
    PrefixRoundTrip(n);
    Assoc(Prefix(n), body, rest);
    assert (Prefix(n) + (body + rest))[2..] == body + rest;
  }

  lemma CopiesLawful<V(!new)>(c: FieldCodec<V>, n: nat)
    requires Lawful(c)
    ensures forall x :: x in Copies(c, n) ==> Lawful(x)
  {
    hide Lawful;
  }

  lemma VecInverts<V(!new)>(c: FieldCodec<V>, cap: nat, items: seq<V>)
    requires Lawful(c) && VecCodec(c, cap).holds(items)
    ensures Inverts(VecCodec(c, cap), items)
  {
    var vec, body := VecCodec(c, cap), TailBytes(Copies(c, |items|), items);
    forall rest ensures vec.dec(vec.enc(items) + rest) == Some((items, |vec.enc(items)|)) {
      TailInverts(Copies(c, |items|), items, rest);
      hide TailBytes, TailDecoded, Lawful, Inverts, Prefix, VecDecoded;
      VecReads(c, cap, |items|, items, body, rest);
    }
  }

  lemma VecWithinMax<V(!new)>(c: FieldCodec<V>, cap: nat, items: seq<V>)
    requires Lawful(c) && VecCodec(c, cap).holds(items)
    ensures |VecCodec(c, cap).enc(items)| <= VecCodec(c, cap).max
  {
    VecParts(c, cap, items);
    hide Lawful, TailBytes, Copies, VecCodec;
    RowWithinMax(c, |items|, items);
    CountWithin(|items|, cap, c.max);
  }

  /** A count, then the row of items. */
  lemma VecParts<V>(c: FieldCodec<V>, cap: nat, items: seq<V>)
    ensures |VecCodec(c, cap).enc(items)| == 2 + |TailBytes(Copies(c, |items|), items)|
    ensures VecCodec(c, cap).max == 2 + cap * c.max
    ensures VecCodec(c, cap).holds(items) ==> |items| <= cap && forall k :: 0 <= k < |items| ==> c.holds(items[k])
  {}

  lemma CountWithin(n: nat, cap: nat, width: nat)
    requires n <= cap
    ensures n * width <= cap * width
  {
    TimesMonotone(width, n, cap);
  }

  lemma RowWithinMax<V(!new)>(c: FieldCodec<V>, n: nat, items: seq<V>)
    requires Lawful(c) && n == |items| && forall k :: 0 <= k < n ==> c.holds(items[k])
    ensures |TailBytes(Copies(c, n), items)| <= n * c.max
  {
    CopiesLawful(c, n);
    hide Lawful, TailBytes, TailMax;
    TailWithinMax(Copies(c, n), items);
    CopiesMax(c, n);
  }

  lemma VecStaysInside<V(!new)>(c: FieldCodec<V>, cap: nat, input: seq<Byte>)
    requires Lawful(c)
    ensures StaysInside(VecCodec(c, cap), input)
  {
    if VecDecoded(c, cap, input).Some? {
      var n := FromLe16(input[0], input[1]);
      CopiesLawful(c, n);
      hide Lawful, TailDecoded, FromLe16;
      TailStaysInside(Copies(c, n), input[2..]);
    }
  }

  /** A lawful element codec makes a lawful vector codec. */
  lemma VecLawful<V(!new)>(c: FieldCodec<V>, cap: nat)
    requires Lawful(c)
    ensures Lawful(VecCodec(c, cap))
  {
    var vec := VecCodec(c, cap);
    forall items | vec.holds(items) ensures Inverts(vec, items) && |vec.enc(items)| <= vec.max {
      VecInverts(c, cap, items);
      VecWithinMax(c, cap, items);
    }
    forall input ensures StaysInside(vec, input) { VecStaysInside(c, cap, input); }
    hide Inverts, StaysInside;
  }

  lemma VecRewrites<V>(c: FieldCodec<V>, cap: nat, input: seq<Byte>, n: nat, items: seq<V>, read: nat)
    requires |input| >= 2 && n == FromLe16(input[0], input[1]) <= cap && read <= |input| - 2
    requires TailHolds(Copies(c, n), items) && TailBytes(Copies(c, n), items) == input[2..][..read]
    ensures Rewrites(VecCodec(c, cap), input, (items, 2 + read))
  {
    hide TailBytes, Prefix, FromLe16;
    PrefixOfCount(input);
    assert input[..2] + input[2..][..read] == input[..2 + read];
    assert forall k :: 0 <= k < n ==> Copies(c, n)[k] == c;
  }

  /** A vector is accepted only within its capacity, element by element. */
  lemma VecExact<V>(c: FieldCodec<V>, cap: nat)
    requires Exact(c)
    ensures Exact(VecCodec(c, cap))
  {
    var vec := VecCodec(c, cap);
    forall input: seq<Byte> | vec.dec(input).Some? ensures Rewrites(vec, input, vec.dec(input).value) {
      var n := FromLe16(input[0], input[1]);
      forall x | x in Copies(c, n) ensures Exact(x) { assert x == c; }
      hide Exact, FromLe16, TailDecoded, TailBytes;
      TailRewrites(Copies(c, n), input[2..]);
      var read := TailDecoded(Copies(c, n), input[2..]).value;
      VecRewrites(c, cap, input, n, read.0, read.1);
    }
  }

  lemma VecTight<V(!new)>(c: FieldCodec<V>, cap: nat)
    requires cap < 0x1_0000 && Tight(c)
    ensures Tight(VecCodec(c, cap))
  {
    var items := TailReachesMax(Copies(c, cap));
    CopiesMax(c, cap);
    VecParts(c, cap, items);
    assert VecCodec(c, cap).holds(items) by { assert forall k :: 0 <= k < cap ==> Copies(c, cap)[k] == c; }
  }

  lemma {:induction false} RowIsJoined(width: nat, items: seq<seq<Byte>>)
    ensures TailBytes(Copies(RawCodec(width), |items|), items) == Joined(items)
  {
    if items != [] {
      var n := |items| - 1;
      assert Copies(RawCodec(width), n + 1)[..n] == Copies(RawCodec(width), n);
      RowIsJoined(width, items[..n]);
    }
  }

  /** The tail's vectors and strings have the bytes the instruction clients
      write for the same values. */
  lemma TailBytesAreWireBytes(width: nat, cap: nat, items: seq<seq<Byte>>, text: seq<Byte>)
    ensures VecCodec(RawCodec(width), cap).enc(items) == ValueBytes(Items(items))
    ensures StringCodec(cap).enc(text) == ValueBytes(Text(text))
  {
    RowIsJoined(width, items);
  }

  function OptionDecoded<V>(c: FieldCodec<V>, input: seq<Byte>): Option<(Option<V>, nat)> {
    if input == [] || input[0] > 1 then None
    else if input[0] == 0 then Some((None, 1))
    else match c.dec(input[1..]) case None => None case Some(read) => Some((Some(read.0), 1 + read.1))
  }

  /** An option is a tag byte, then the value when there is one. */
  function OptionCodec<V>(c: FieldCodec<V>): FieldCodec<Option<V>> {
    FieldCodec((o: Option<V>) => match o case None => [0] case Some(v) => [1] + c.enc(v),
               (input: seq<Byte>) => OptionDecoded(c, input),
               1 + c.max,
               (o: Option<V>) => o.Some? ==> c.holds(o.value))
  }

  lemma OptionLawful<V(!new)>(c: FieldCodec<V>)
    requires Lawful(c)
    ensures Lawful(OptionCodec(c))
  {
    var o := OptionCodec(c);
    forall v, rest: seq<Byte> | o.holds(v) ensures o.dec(o.enc(v) + rest) == Some((v, |o.enc(v)|)) {
      if v.Some? {
        assert Inverts(c, v.value);
        Assoc([1], c.enc(v.value), rest);
        assert ([1] + (c.enc(v.value) + rest))[1..] == c.enc(v.value) + rest;
      }
    }
    forall input ensures StaysInside(o, input) {
      if input != [] { assert StaysInside(c, input[1..]); }
    }
  }

  /** Of tags only zero and one are accepted. */
  lemma OptionExact<V>(c: FieldCodec<V>)
    requires Exact(c)
    ensures Exact(OptionCodec(c))
  {
    var o := OptionCodec(c);
    forall input: seq<Byte> | o.dec(input).Some? ensures Rewrites(o, input, o.dec(input).value) {
      if input[0] == 1 {
        var read := c.dec(input[1..]).value;
        assert Rewrites(c, input[1..], read);
        assert [input[0]] + input[1..][..read.1] == input[..1 + read.1];
      }
    }
  }

  lemma OptionTight<V(!new)>(c: FieldCodec<V>)
    requires Tight(c)
    ensures Tight(OptionCodec(c))
  {
    var v :| c.holds(v) && |c.enc(v)| == c.max;
    assert OptionCodec(c).holds(Some(v)) && |OptionCodec(c).enc(Some(v))| == 1 + c.max;
  }

  // -------------------------------------------------------------------------
  // Fields of different types: each is lifted into a sum of the two.
  // -------------------------------------------------------------------------

  datatype Either<A, B> = Left(left: A) | Right(right: B)

  function InLeft<A, B>(c: FieldCodec<A>): FieldCodec<Either<A, B>> {
    FieldCodec((v: Either<A, B>) => match v case Left(a) => c.enc(a) case Right(_) => [],
               (input: seq<Byte>) =>
                 match c.dec(input) case None => None case Some(read) => Some((Left(read.0), read.1)),
               c.max, (v: Either<A, B>) => v.Left? && c.holds(v.left))
  }

  function InRight<A, B>(c: FieldCodec<B>): FieldCodec<Either<A, B>> {
    FieldCodec((v: Either<A, B>) => match v case Left(_) => [] case Right(b) => c.enc(b),
               (input: seq<Byte>) =>
                 match c.dec(input) case None => None case Some(read) => Some((Right(read.0), read.1)),
               c.max, (v: Either<A, B>) => v.Right? && c.holds(v.right))
  }

  lemma InLeftLawful<A(!new), B(!new)>(c: FieldCodec<A>)
    requires Lawful(c)
    ensures Lawful(InLeft<A, B>(c))
  {
    var lifted := InLeft<A, B>(c);
    forall v | lifted.holds(v) ensures Inverts(lifted, v) { assert Inverts(c, v.left); }
    forall input ensures StaysInside(lifted, input) { assert StaysInside(c, input); }
  }

  lemma InRightLawful<A(!new), B(!new)>(c: FieldCodec<B>)
    requires Lawful(c)
    ensures Lawful(InRight<A, B>(c))
  {
    var lifted := InRight<A, B>(c);
    forall v | lifted.holds(v) ensures Inverts(lifted, v) { assert Inverts(c, v.right); }
    forall input ensures StaysInside(lifted, input) { assert StaysInside(c, input); }
  }

  lemma InLeftExact<A, B>(c: FieldCodec<A>)
    requires Exact(c)
    ensures Exact(InLeft<A, B>(c))
  {
    var lifted := InLeft<A, B>(c);
    forall input: seq<Byte> | lifted.dec(input).Some? ensures Rewrites(lifted, input, lifted.dec(input).value) {
      assert Rewrites(c, input, c.dec(input).value);
    }
  }

  lemma InRightExact<A, B>(c: FieldCodec<B>)
    requires Exact(c)
    ensures Exact(InRight<A, B>(c))
  {
    var lifted := InRight<A, B>(c);
    forall input: seq<Byte> | lifted.dec(input).Some? ensures Rewrites(lifted, input, lifted.dec(input).value) {
      assert Rewrites(c, input, c.dec(input).value);
    }
  }

  lemma LiftsTight<A(!new), B(!new)>(a: FieldCodec<A>, b: FieldCodec<B>)
    requires Tight(a) && Tight(b)
    ensures Tight(InLeft<A, B>(a)) && Tight(InRight<A, B>(b))
  {
    var v :| a.holds(v) && |a.enc(v)| == a.max;
    var w :| b.holds(w) && |b.enc(w)| == b.max;
    assert InLeft<A, B>(a).holds(Left(v)) && InRight<A, B>(b).holds(Right(w));
  }

  type Label = seq<Byte>
  type Addresses = seq<seq<Byte>>

  /** A label of up to 32 bytes, then up to ten addresses. */
  function MultisigTail(): seq<FieldCodec<Either<Label, Addresses>>> {
    [InLeft(StringCodec(32)), InRight(VecCodec(RawCodec(32), 10))]
  }

  /** The macro's own example composes a string and a vector of addresses. */
  lemma MultisigTailLawful()
    ensures Lawful(Composed(MultisigTail())) && Composed(MultisigTail()).max == 356
  {
    StringLawful(32);
    InLeftLawful<Label, Addresses>(StringCodec(32));
    RawLawful(32);
    VecLawful(RawCodec(32), 10);
    InRightLawful<Label, Addresses>(VecCodec(RawCodec(32), 10));
    hide Lawful, StringCodec, VecCodec, RawCodec;
    PairLawful(MultisigTail()[0], MultisigTail()[1]);
    MultisigTailMax();
  }

  /** And it accepts nothing but what it writes. */
  lemma MultisigTailExact()
    ensures Exact(Composed(MultisigTail()))
  {
    StringExact(32);
    InLeftExact<Label, Addresses>(StringCodec(32));
    RawExact(32);
    VecExact(RawCodec(32), 10);
    InRightExact<Label, Addresses>(VecCodec(RawCodec(32), 10));
    hide Exact, StringCodec, VecCodec, RawCodec, InLeft, InRight;
    var fields := MultisigTail();
    assert forall c :: c in fields ==> c == fields[0] || c == fields[1];
    ComposedExact(fields);
  }

  /** Its 356 bytes are needed: some label and addresses take them all. */
  lemma MultisigTailTight()
    ensures Tight(Composed(MultisigTail()))
  {
    StringTight(32);
    RawTight(32);
    VecTight(RawCodec(32), 10);
    LiftsTight<Label, Addresses>(StringCodec(32), VecCodec(RawCodec(32), 10));
    hide Tight, StringCodec, VecCodec, RawCodec, InLeft, InRight;
    PairTight(MultisigTail()[0], MultisigTail()[1]);
  }

  lemma PairTight<V(!new)>(a: FieldCodec<V>, b: FieldCodec<V>)
    requires Tight(a) && Tight(b)
    ensures Tight(Composed([a, b]))
  {
    hide Tight, Composed;
    assert forall c :: c in [a, b] ==> c == a || c == b;
    ComposedTight([a, b]);
  }

  lemma PairLawful<V(!new)>(a: FieldCodec<V>, b: FieldCodec<V>)
    requires Lawful(a) && Lawful(b)
    ensures Lawful(Composed([a, b]))
  {
    hide Lawful, Composed;
    assert forall c :: c in [a, b] ==> c == a || c == b;
    ComposedLawful([a, b]);
  }

  lemma MultisigTailMax()
    ensures TailMax(MultisigTail()) == 356
  {
    var fields := MultisigTail();
    assert fields[0].max == 34 && fields[1].max == 322;
    assert fields[..1][..0] == [] && fields[..1] == [fields[0]];
    assert TailMax(fields[..1]) == TailMax(fields[..1][..0]) + fields[0].max;
  }
}
