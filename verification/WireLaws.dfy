/** The client encoder and decoder invert each other for every schema, and
    nothing shorter or longer than an encoding is accepted. */
module WireLaws {
  import opened Orders
  import opened Octets
  import opened Codecs
  import opened Wire

  // -------------------------------------------------------------------------
  // One argument.
  // -------------------------------------------------------------------------

  lemma OneMore(n: nat, width: nat)
    ensures n * width + width == (n + 1) * width
  {}

  lemma {:induction false} JoinedLength(items: seq<seq<Byte>>, width: nat)
    requires forall e :: e in items ==> |e| == width
    ensures |Joined(items)| == |items| * width
  {
    if items != [] {
      var n := |items| - 1;
      assert items[n] in items;
      JoinedLength(items[..n], width);
      OneMore(n, width);
    }
  }

  lemma {:induction false} ChunksOfJoined(items: seq<seq<Byte>>, width: nat)
    requires forall e :: e in items ==> |e| == width
    ensures |Joined(items)| == |items| * width
    ensures Chunks(Joined(items), width, |items|) == items
  {
    JoinedLength(items, width);
    if items != [] {
      var init, last := items[..|items| - 1], items[|items| - 1];
      assert last in items;
      OneMore(|init|, width);
      JoinedLength(init, width);
      ChunksOfJoined(init, width);
      assert Joined(items)[..|init| * width] == Joined(init);
      assert Joined(items)[|init| * width..] == last;
      assert items == init + [last];
    }
  }

  lemma {:induction false} JoinedOfChunks(bytes: seq<Byte>, width: nat, count: nat)
    requires |bytes| == count * width
    ensures Joined(Chunks(bytes, width, count)) == bytes
    ensures |Chunks(bytes, width, count)| == count
    ensures forall e :: e in Chunks(bytes, width, count) ==> |e| == width
  {
    if count > 0 {
      assert (count - 1) * width + width == count * width;
      var init := bytes[..(count - 1) * width];
      JoinedOfChunks(init, width, count - 1);
      var cs := Chunks(bytes, width, count);
      assert cs[..|cs| - 1] == Chunks(init, width, count - 1);
    }
  }

  lemma PrefixReads(cap: nat, pre: seq<Byte>, n: nat, rest: seq<Byte>)
    requires n <= cap < 0x1_0000
    ensures PrefixAt(cap, pre + Prefix(n) + rest, |pre|) == Ok(n)
  {
    Le16RoundTrip(n);
    var data := pre + Prefix(n) + rest;
    assert data[|pre|] == Le16(n)[0] && data[|pre| + 1] == Le16(n)[1];
  }

  /** A counted body in the middle of a buffer. */
  lemma Counted(cap: nat, pre: seq<Byte>, n: nat, body: seq<Byte>, rest: seq<Byte>, data: seq<Byte>)
    requires n <= cap < 0x1_0000 && data == pre + (Prefix(n) + body) + rest
    ensures |data| >= |pre| + 2 + |body|
    ensures PrefixAt(cap, data, |pre|) == Ok(n)
    ensures data[|pre| + 2..|pre| + 2 + |body|] == body
  {
    Assoc(pre, Prefix(n), body);
    Assoc(pre + Prefix(n), body, rest);
    PrefixReads(cap, pre, n, body + rest);
  }

  lemma RawReads(utf8: seq<Byte> -> bool, bytes: seq<Byte>)
    ensures ReadsBack(ValueStep(utf8), Fixed(|bytes|), Raw(bytes), bytes)
  {
    forall pre, rest
      ensures ValueStep(utf8)(Fixed(|bytes|), pre + bytes + rest, |pre|) == Ok((Raw(bytes), |pre| + |bytes|))
    {
      assert (pre + bytes + rest)[|pre|..|pre| + |bytes|] == bytes;
    }
  }

  lemma ModSmall(n: nat, p: nat)
    requires n < p
    ensures n % p == n
  {}

  /** In range nothing wraps. */
  lemma NumberExact(n: int, width: nat)
    requires InRange(n, width)
    ensures NumberBytes(n, width) == LeBytes(n, width)
  {
    hide Pow256, LeBytes;
    ModSmall(n, Pow256(width));
  }

  lemma NumberReads(utf8: seq<Byte> -> bool, n: int, width: nat)
    requires InRange(n, width)
    ensures ReadsBack(ValueStep(utf8), Num(width), Number(n, width), NumberBytes(n, width))
  {
    hide NumberBytes, FromLe, LeBytes, Pow256;
    var bytes := NumberBytes(n, width);
    NumberExact(n, width);
    LeBytesRoundTrip(n, width);
    forall pre, rest
      ensures ValueStep(utf8)(Num(width), pre + bytes + rest, |pre|) == Ok((Number(n, width), |pre| + |bytes|))
    {
      assert (pre + bytes + rest)[|pre|..|pre| + |bytes|] == bytes;
    }
  }

  lemma NumberWrites(bytes: seq<Byte>)
    ensures InRange(FromLe(bytes), |bytes|) && NumberBytes(FromLe(bytes), |bytes|) == bytes
  {
    hide NumberBytes, FromLe, LeBytes, Pow256;
    FromLeRoundTrip(bytes);
    NumberExact(FromLe(bytes), |bytes|);
  }

  /** Reading a vector out of a buffer that holds its count and its bytes. */
  lemma VecAt(utf8: seq<Byte> -> bool, cap: nat, width: nat, items: seq<seq<Byte>>, n: nat, body: seq<Byte>,
              data: seq<Byte>, offset: nat)
    requires (forall e :: e in items ==> |e| == width) && n == |items| && body == Joined(items)
    requires |data| >= offset + 2 + |body| && PrefixAt(cap, data, offset) == Ok(n)
    requires data[offset + 2..offset + 2 + |body|] == body
    ensures ValueAt(utf8, Vec(cap, width), data, offset) == Ok((Items(items), offset + (2 + |body|)))
  {
    ChunksOfJoined(items, width);
  }

  lemma ItemsReadBetween(utf8: seq<Byte> -> bool, cap: nat, width: nat, items: seq<seq<Byte>>, n: nat,
                         body: seq<Byte>, pre: seq<Byte>, rest: seq<Byte>, data: seq<Byte>)
    requires n == |items| <= cap < 0x1_0000 && (forall e :: e in items ==> |e| == width)
    requires body == Joined(items) && data == pre + (Prefix(n) + body) + rest
    ensures |pre| <= |data| && ValueAt(utf8, Vec(cap, width), data, |pre|) == Ok((Items(items), |pre| + (2 + |body|)))
  {
    hide FromLe16, Le16, Chunks, Joined, Prefix;
    Counted(cap, pre, n, body, rest, data);
    VecAt(utf8, cap, width, items, n, body, data, |pre|);
  }

  lemma ItemsRead(utf8: seq<Byte> -> bool, cap: nat, width: nat, items: seq<seq<Byte>>, n: nat,
                  body: seq<Byte>, bytes: seq<Byte>)
    requires n == |items| <= cap < 0x1_0000 && forall e :: e in items ==> |e| == width
    requires body == Joined(items) && bytes == Prefix(n) + body && |bytes| == 2 + |body|
    ensures ReadsBack(ValueStep(utf8), Vec(cap, width), Items(items), bytes)
  {
    hide FromLe16, Le16, Chunks, Joined, Prefix;
    forall pre, rest
      ensures ValueStep(utf8)(Vec(cap, width), pre + bytes + rest, |pre|) == Ok((Items(items), |pre| + |bytes|))
    {
      ItemsReadBetween(utf8, cap, width, items, n, body, pre, rest, pre + bytes + rest);
    }
  }

  lemma TextReads(utf8: seq<Byte> -> bool, cap: nat, text: seq<Byte>)
    requires |text| <= cap < 0x1_0000 && utf8(text)
    ensures ReadsBack(ValueStep(utf8), Str(cap), Text(text), Prefix(|text|) + text)
  {
    var bytes := Prefix(|text|) + text;
    forall pre, rest
      ensures ValueStep(utf8)(Str(cap), pre + bytes + rest, |pre|) == Ok((Text(text), |pre| + |bytes|))
    {
      Counted(cap, pre, |text|, text, rest, pre + bytes + rest);
    }
  }

  /** A written argument is read back, whatever stands before and after it. */
  lemma ValueReads(utf8: seq<Byte> -> bool, s: Shape, v: Value)
    requires ValidShape(s) && Typed(utf8, s, v) && WithinCap(s, v)
    ensures ReadsBack(ValueStep(utf8), s, v, ValueEncoder()(v))
  {
    match (s, v) {
      case (Fixed(_), Raw(bytes)) => RawReads(utf8, bytes);
      case (Num(width), Number(n, _)) => NumberReads(utf8, n, width);
      case (Vec(cap, width), Items(items)) =>
        ItemsRead(utf8, cap, width, items, |items|, Joined(items), ValueEncoder()(v));
      case (Str(cap), Text(text)) => TextReads(utf8, cap, text);
    }
  }

  lemma PrefixWrites(cap: nat, data: seq<Byte>, offset: nat)
    requires offset <= |data| && cap < 0x1_0000 && PrefixAt(cap, data, offset).Ok?
    ensures Prefix(PrefixAt(cap, data, offset).value) == data[offset..offset + 2]
  {
    hide Le16, FromLe16;
    var b0, b1 := data[offset], data[offset + 1];
    FromLe16RoundTrip(b0, b1);
    assert FromLe16(b0, b1) % 0x1_0000 == FromLe16(b0, b1);
    assert data[offset..offset + 2] == [b0, b1];
  }

  /** What an argument read from the wire satisfies. */
  ghost function Acceptable(utf8: seq<Byte> -> bool): (Shape, Value) -> bool {
    (s: Shape, v: Value) => Typed(utf8, s, v) && WithinCap(s, v)
  }

  lemma VecWrites(utf8: seq<Byte> -> bool, cap: nat, width: nat, data: seq<Byte>, offset: nat)
    requires cap < 0x1_0000 && offset <= |data| && ValueAt(utf8, Vec(cap, width), data, offset).Ok?
    ensures var (v, end) := ValueAt(utf8, Vec(cap, width), data, offset).value;
      Acceptable(utf8)(Vec(cap, width), v) && ValueBytes(v) == data[offset..end]
  {
    hide Le16, FromLe16, Chunks, Joined, Prefix;
    PrefixWrites(cap, data, offset);
    var count := PrefixAt(cap, data, offset).value;
    var (v, end) := ValueAt(utf8, Vec(cap, width), data, offset).value;
    ItemsWritten(width, count, v, data[offset + 2..end], Prefix(count));
    SlicesMeet(data, offset, offset + 2, end);
  }

  lemma ItemsWritten(width: nat, count: nat, v: Value, body: seq<Byte>, prefix: seq<Byte>)
    requires |body| == count * width && v == Items(Chunks(body, width, count)) && prefix == Prefix(count)
    ensures |v.items| == count && ValueBytes(v) == prefix + body
    ensures forall e :: e in v.items ==> |e| == width
  {
    JoinedOfChunks(body, width, count);
  }

  lemma StrWrites(utf8: seq<Byte> -> bool, cap: nat, data: seq<Byte>, offset: nat)
    requires cap < 0x1_0000 && offset <= |data| && ValueAt(utf8, Str(cap), data, offset).Ok?
    ensures var (v, end) := ValueAt(utf8, Str(cap), data, offset).value;
      Acceptable(utf8)(Str(cap), v) && ValueBytes(v) == data[offset..end]
  {
    PrefixWrites(cap, data, offset);
    var count := PrefixAt(cap, data, offset).value;
    SlicesMeet(data, offset, offset + 2, offset + 2 + count);
  }

  /** An argument that was read is well typed, within its capacity, and writes
      exactly the bytes it was read from. */
  lemma ValueWrites(utf8: seq<Byte> -> bool, s: Shape, data: seq<Byte>)
    requires ValidShape(s)
    ensures WritesBack(ValueStep(utf8), ValueEncoder(), Acceptable(utf8), s, data)
  {
    forall offset: nat, v, end | offset <= |data| && ValueStep(utf8)(s, data, offset) == Ok((v, end))
      ensures offset <= end <= |data| && Acceptable(utf8)(s, v) && ValueEncoder()(v) == data[offset..end]
    {
      match s {
        case Fixed(_) =>
        case Num(width) => NumberWrites(data[offset..end]);
        case Vec(cap, width) => VecWrites(utf8, cap, width, data, offset);
        case Str(cap) => StrWrites(utf8, cap, data, offset);
      }
    }
  }

  // -------------------------------------------------------------------------
  // All arguments.
  // -------------------------------------------------------------------------

  lemma ValuesRead(utf8: seq<Byte> -> bool, tag: Byte, schema: seq<Shape>, values: seq<Value>, rest: seq<Byte>)
    requires ValidSchema(schema) && AllTyped(utf8, schema, values) && AllWithinCap(schema, values)
    ensures ValuesAt(utf8, schema, [tag] + Body(values) + rest) == Ok((values, 1 + |Body(values)|))
  {
    forall k | 0 <= k < |schema|
      ensures ReadsBack(ValueStep(utf8), schema[k], values[k], ValueEncoder()(values[k]))
    {
      assert schema[k] in schema;
      ValueReads(utf8, schema[k], values[k]);
    }
    RunReadsBack(ValueStep(utf8), ValueEncoder(), schema, values, [tag], rest);
  }

  /** Decoding an encoding returns the arguments. */
  lemma DecodeInvertsEncode(utf8: seq<Byte> -> bool, tag: Byte, schema: seq<Shape>, values: seq<Value>)
    requires ValidSchema(schema) && AllTyped(utf8, schema, values) && Encoded(tag, schema, values).Ok?
    ensures Decoded(utf8, tag, schema, Encoded(tag, schema, values).value) == Ok(values)
  {
    ValuesRead(utf8, tag, schema, values, []);
    assert [tag] + Body(values) + [] == [tag] + Body(values);
  }

  lemma ValuesWritten(utf8: seq<Byte> -> bool, schema: seq<Shape>, data: seq<Byte>)
    requires |data| > 0 && ValidSchema(schema) && ValuesAt(utf8, schema, data).Ok?
    ensures var (values, end) := ValuesAt(utf8, schema, data).value;
      && 1 <= end <= |data| && |values| == |schema|
      && AllTyped(utf8, schema, values) && AllWithinCap(schema, values)
      && Body(values) == data[1..end]
  {
    forall s | s in schema ensures WritesBack(ValueStep(utf8), ValueEncoder(), Acceptable(utf8), s, data) {
      ValueWrites(utf8, s, data);
    }
    RunWritesBack(ValueStep(utf8), ValueEncoder(), Acceptable(utf8), schema, data, 1);
    var values := ValuesAt(utf8, schema, data).value.0;
    assert forall k :: 0 <= k < |schema| ==> Acceptable(utf8)(schema[k], values[k]);
  }

  /** Any accepted byte string is the encoding of what it decodes to. */
  lemma EncodeInvertsDecode(utf8: seq<Byte> -> bool, tag: Byte, schema: seq<Shape>, data: seq<Byte>)
    requires ValidSchema(schema) && Decoded(utf8, tag, schema, data).Ok?
    ensures var values := Decoded(utf8, tag, schema, data).value;
      AllTyped(utf8, schema, values) && Encoded(tag, schema, values) == Ok(data)
  {
    ValuesWritten(utf8, schema, data);
    HeadAndTail(data);
  }

  lemma HeadAndTail(data: seq<Byte>)
    requires data != []
    ensures data == [data[0]] + data[1..|data|]
  {}

  // -------------------------------------------------------------------------
  // Prefixes and extensions.
  // -------------------------------------------------------------------------

  /** Refused because `got` bytes are fewer than the decoder needs. */
  function TooSmall(got: nat): ClientError -> bool {
    (e: ClientError) => e.BufferTooSmall? && e.got == got < e.need
  }

  lemma PrefixCut(cap: nat, data: seq<Byte>, offset: nat, n: nat)
    requires offset <= n <= |data| && PrefixAt(cap, data, offset).Ok?
    ensures PrefixAt(cap, data[..n], offset)
         == if offset + 2 <= n then PrefixAt(cap, data, offset) else Err(BufferTooSmall(offset + 2, n))
  {
    hide FromLe16;
  }

  lemma CutSlice(data: seq<Byte>, n: nat, a: nat, b: nat)
    requires a <= b <= n <= |data|
    ensures data[..n][a..b] == data[a..b]
  {}

  /** Counted arguments end after their count. */
  lemma AfterPrefix(utf8: seq<Byte> -> bool, s: Shape, data: seq<Byte>, offset: nat)
    requires offset <= |data| && ValueAt(utf8, s, data, offset).Ok?
    ensures !s.Flat() ==> offset + 2 <= ValueAt(utf8, s, data, offset).value.1
  {
    hide FromLe16, Chunks;
  }

  lemma ValueCut(utf8: seq<Byte> -> bool, s: Shape, data: seq<Byte>, offset: nat, n: nat)
    requires offset <= n <= |data| && ValueAt(utf8, s, data, offset).Ok?
    ensures var (v, end) := ValueAt(utf8, s, data, offset).value;
      var cut := ValueAt(utf8, s, data[..n], offset);
      if end <= n then cut == Ok((v, end)) else cut.Err? && TooSmall(n)(cut.error)
  {
    AfterPrefix(utf8, s, data, offset);
    hide PrefixAt, Chunks;
    var end := ValueAt(utf8, s, data, offset).value.1;
    if s.Flat() {
      if end <= n { CutSlice(data, n, offset, end); }
    } else {
      PrefixCut(s.cap, data, offset, n);
      if end <= n { CutSlice(data, n, offset + 2, end); }
    }
  }

  lemma ValueCuts(utf8: seq<Byte> -> bool, s: Shape, data: seq<Byte>, n: nat)
    requires n <= |data|
    ensures Cuts(ValueStep(utf8), TooSmall(n), s, data, n)
  {
    hide ValueAt;
    forall offset: nat, v, end | offset <= |data| && ValueStep(utf8)(s, data, offset) == Ok((v, end))
      ensures offset <= end <= |data|
      ensures offset <= n && end <= n ==> ValueStep(utf8)(s, data[..n], offset) == Ok((v, end))
      ensures offset <= n < end ==>
        ValueStep(utf8)(s, data[..n], offset).Err? && TooSmall(n)(ValueStep(utf8)(s, data[..n], offset).error)
    {
      if offset <= n { ValueCut(utf8, s, data, offset, n); }
    }
  }

  /** Every proper prefix of an accepted byte string is refused for being too short. */
  lemma PrefixesRefused(utf8: seq<Byte> -> bool, tag: Byte, schema: seq<Shape>, data: seq<Byte>, n: nat)
    requires Decoded(utf8, tag, schema, data).Ok? && n < |data|
    ensures var r := Decoded(utf8, tag, schema, data[..n]); r.Err? && TooSmall(n)(r.error)
  {
    if n > 0 {
      forall s | s in schema ensures Cuts(ValueStep(utf8), TooSmall(n), s, data, n) { ValueCuts(utf8, s, data, n); }
      RunCuts(ValueStep(utf8), TooSmall(n), schema, data, 1, n);
    }
  }

  lemma LongerSlice(data: seq<Byte>, more: seq<Byte>, a: nat, b: nat)
    requires a <= b <= |data|
    ensures (data + more)[a..b] == data[a..b]
  {}

  lemma ValueExtend(utf8: seq<Byte> -> bool, s: Shape, data: seq<Byte>, offset: nat, longer: seq<Byte>, end: nat)
    requires offset <= |data| <= |longer| && ValueAt(utf8, s, data, offset).Ok?
    requires end == ValueAt(utf8, s, data, offset).value.1
    requires forall k :: 0 <= k < |data| ==> longer[k] == data[k]
    requires longer[offset..end] == data[offset..end]
    requires !s.Flat() ==> longer[offset + 2..end] == data[offset + 2..end]
    ensures ValueAt(utf8, s, longer, offset) == ValueAt(utf8, s, data, offset)
  {
    hide FromLe16, Chunks;
  }

  lemma ValueExtends(utf8: seq<Byte> -> bool, s: Shape, data: seq<Byte>, more: seq<Byte>)
    ensures Extends(ValueStep(utf8), s, data, more)
  {
    hide ValueAt;
    forall offset: nat, v, end | offset <= |data| && ValueStep(utf8)(s, data, offset) == Ok((v, end))
      ensures offset <= end <= |data| && ValueStep(utf8)(s, data + more, offset) == Ok((v, end))
    {
      AfterPrefix(utf8, s, data, offset);
      LongerSlice(data, more, offset, end);
      if !s.Flat() { LongerSlice(data, more, offset + 2, end); }
      ValueExtend(utf8, s, data, offset, data + more, end);
    }
  }

  /** Every proper extension is refused for its surplus. */
  lemma ExtensionsRefused(utf8: seq<Byte> -> bool, tag: Byte, schema: seq<Shape>, data: seq<Byte>, more: seq<Byte>)
    requires Decoded(utf8, tag, schema, data).Ok? && more != []
    ensures Decoded(utf8, tag, schema, data + more) == Err(InvalidInstructionData)
  {
    forall s | s in schema ensures Extends(ValueStep(utf8), s, data, more) { ValueExtends(utf8, s, data, more); }
    RunExtends(ValueStep(utf8), schema, data, 1, more);
  }

  // -------------------------------------------------------------------------
  // Length.
  // -------------------------------------------------------------------------

  function WireSize(s: Shape): nat {
    match s
    case Fixed(width) => width
    case Num(width) => width
    case Vec(cap, width) => 2 + cap * width
    case Str(cap) => 2 + cap
  }

  /** The published maximum length of an instruction's data. */
  function DataLen(schema: seq<Shape>): nat {
    if schema == [] then 1 else DataLen(schema[..|schema| - 1]) + WireSize(schema[|schema| - 1])
  }

  predicate Full(s: Shape, v: Value) {
    match s case Vec(cap, _) => Count(v) == cap case Str(cap) => Count(v) == cap case _ => true
  }

  lemma TimesGrows(a: nat, b: nat, width: nat)
    requires a <= b && width > 0
    ensures a * width <= b * width
    ensures a * width == b * width <==> a == b
  {
    Distribute(a, b - a, width);
  }

  lemma Distribute(a: nat, d: nat, width: nat)
    requires width > 0
    ensures (a + d) * width == a * width + d * width
    ensures d * width >= d
  {}

  lemma ItemsLength(cap: nat, width: nat, items: seq<seq<Byte>>)
    requires |items| <= cap && width > 0 && forall e :: e in items ==> |e| == width
    ensures 2 + |Joined(items)| <= 2 + cap * width
    ensures 2 + |Joined(items)| == 2 + cap * width <==> |items| == cap
  {
    JoinedLength(items, width);
    TimesGrows(|items|, cap, width);
  }

  lemma ValueLength(utf8: seq<Byte> -> bool, s: Shape, v: Value)
    requires ValidShape(s) && Typed(utf8, s, v) && WithinCap(s, v)
    ensures |ValueEncoder()(v)| <= WireSize(s)
    ensures |ValueEncoder()(v)| == WireSize(s) <==> Full(s, v)
  {
    match (s, v) {
      case (Vec(cap, width), Items(items)) => ItemsLength(cap, width, items);
      case _ =>
    }
  }

  /** Lengths of a list of encodings against a list of bounds. */
  lemma {:induction false} TotalLength(schema: seq<Shape>, values: seq<Value>, enc: Value -> seq<Byte>,
                                       full: (Shape, Value) -> bool)
    requires |schema| == |values|
    requires forall k :: 0 <= k < |schema| ==>
      && |enc(values[k])| <= WireSize(schema[k])
      && (|enc(values[k])| == WireSize(schema[k]) <==> full(schema[k], values[k]))
    ensures 1 + |FlatMap(values, enc)| <= DataLen(schema)
    ensures 1 + |FlatMap(values, enc)| == DataLen(schema)
       <==> forall k :: 0 <= k < |schema| ==> full(schema[k], values[k])
  {
    if schema != [] {
      var n := |schema| - 1;
      TotalLength(schema[..n], values[..n], enc, full);
      assert |enc(values[n])| <= WireSize(schema[n]);
    }
  }

  function Fullness(): (Shape, Value) -> bool { (s: Shape, v: Value) => Full(s, v) }

  /** An encoding is never longer than the published maximum, and as long exactly
      when every bounded argument is at its capacity. */
  lemma EncodingLength(utf8: seq<Byte> -> bool, schema: seq<Shape>, values: seq<Value>)
    requires ValidSchema(schema) && AllTyped(utf8, schema, values) && AllWithinCap(schema, values)
    ensures 1 + |Body(values)| <= DataLen(schema)
    ensures 1 + |Body(values)| == DataLen(schema) <==> forall k :: 0 <= k < |schema| ==> Full(schema[k], values[k])
  {
    forall k | 0 <= k < |schema|
      ensures |ValueEncoder()(values[k])| <= WireSize(schema[k])
      ensures |ValueEncoder()(values[k])| == WireSize(schema[k]) <==> Fullness()(schema[k], values[k])
    {
      assert schema[k] in schema;
      ValueLength(utf8, schema[k], values[k]);
    }
    TotalLength(schema, values, ValueEncoder(), Fullness());
    assert forall k :: 0 <= k < |schema| ==> (Fullness()(schema[k], values[k]) <==> Full(schema[k], values[k]));
  }

  // -------------------------------------------------------------------------
  // The three generated instructions.
  // -------------------------------------------------------------------------

  const SUBMIT: seq<Shape> := [Vec(4, 10), Num(2)]
  const BYTES: seq<Shape> := [Vec(8, 1), Str(16)]
  const ALIASES: seq<Shape> := [Vec(4, 2), Str(16), Fixed(2), Fixed(3)]

  lemma DataLenStep(schema: seq<Shape>, s: Shape)
    ensures DataLen(schema + [s]) == DataLen(schema) + WireSize(s)
  {
    assert (schema + [s])[..|schema|] == schema;
  }

  lemma SubmitLength()
    ensures ValidSchema(SUBMIT) && DataLen(SUBMIT) == 45
  {
    DataLenStep([], Vec(4, 10));
    DataLenStep([Vec(4, 10)], Num(2));
    assert SUBMIT == [] + [Vec(4, 10)] + [Num(2)];
  }

  lemma BytesLength()
    ensures ValidSchema(BYTES) && DataLen(BYTES) == 29
  {
    DataLenStep([], Vec(8, 1));
    DataLenStep([Vec(8, 1)], Str(16));
    assert BYTES == [] + [Vec(8, 1)] + [Str(16)];
  }

  lemma AliasesLength()
    ensures ValidSchema(ALIASES) && DataLen(ALIASES) == 34
  {
    DataLenStep([], Vec(4, 2));
    DataLenStep([Vec(4, 2)], Str(16));
    DataLenStep([Vec(4, 2), Str(16)], Fixed(2));
    DataLenStep([Vec(4, 2), Str(16), Fixed(2)], Fixed(3));
    assert ALIASES == [] + [Vec(4, 2)] + [Str(16)] + [Fixed(2)] + [Fixed(3)];
  }

  /** Two quantities, an accented letter, a nonce and a salt, byte by byte. */
  lemma AliasesExample(utf8: seq<Byte> -> bool)
    requires utf8([0xC3, 0xA9])
    ensures Decoded(utf8, 2, ALIASES, [2, 2, 0, 7, 0, 11, 0, 2, 0, 0xC3, 0xA9, 1, 2, 1, 2, 3])
         == Ok([Items([[7, 0], [11, 0]]), Text([0xC3, 0xA9]), Raw([1, 2]), Raw([1, 2, 3])])
  {
    AliasesTyped(utf8);
    AliasesLength();
    AliasesBody();
    hide AllTyped, AllWithinCap, ValidSchema, DataLen, Body, Decoded;
    var values := [Items([[7, 0], [11, 0]]), Text([0xC3, 0xA9]), Raw([1, 2]), Raw([1, 2, 3])];
    assert [2] + Body(values) == [2, 2, 0, 7, 0, 11, 0, 2, 0, 0xC3, 0xA9, 1, 2, 1, 2, 3];
    DecodeInvertsEncode(utf8, 2, ALIASES, values);
  }

  lemma AliasesTyped(utf8: seq<Byte> -> bool)
    requires utf8([0xC3, 0xA9])
    ensures AllTyped(utf8, ALIASES, [Items([[7, 0], [11, 0]]), Text([0xC3, 0xA9]), Raw([1, 2]), Raw([1, 2, 3])])
    ensures AllWithinCap(ALIASES, [Items([[7, 0], [11, 0]]), Text([0xC3, 0xA9]), Raw([1, 2]), Raw([1, 2, 3])])
  {}

  lemma AliasesBody()
    ensures Body([Items([[7, 0], [11, 0]]), Text([0xC3, 0xA9]), Raw([1, 2]), Raw([1, 2, 3])])
         == [2, 0, 7, 0, 11, 0, 2, 0, 0xC3, 0xA9, 1, 2, 1, 2, 3]
  {
    var a, b, c, d := Items([[7, 0], [11, 0]]), Text([0xC3, 0xA9]), Raw([1, 2]), Raw([1, 2, 3]);
    QuantitiesBytes();
    LetterBytes();
    hide ValueBytes, Body;
    BodyOfFour(a, b, c, d);
    FourJoined(ValueBytes(a), ValueBytes(b));
  }

  lemma LetterBytes()
    ensures ValueBytes(Text([0xC3, 0xA9])) == [2, 0, 0xC3, 0xA9]
    ensures ValueBytes(Raw([1, 2])) == [1, 2] && ValueBytes(Raw([1, 2, 3])) == [1, 2, 3]
  {}

  lemma FourJoined(a: seq<Byte>, b: seq<Byte>)
    requires a == [2, 0, 7, 0, 11, 0] && b == [2, 0, 0xC3, 0xA9]
    ensures a + b + [1, 2] + [1, 2, 3] == [2, 0, 7, 0, 11, 0, 2, 0, 0xC3, 0xA9, 1, 2, 1, 2, 3]
  {}

  lemma QuantitiesBytes()
    ensures ValueBytes(Items([[7, 0], [11, 0]])) == [2, 0, 7, 0, 11, 0]
  {
    var items: seq<seq<Byte>> := [[7, 0], [11, 0]];
    assert items[..1] == [[7, 0]] && items[..1][..0] == [];
    assert Joined(items[..1]) == [7, 0];
  }

  lemma FlatMapFour<V>(a: V, b: V, c: V, d: V, enc: V -> seq<Byte>)
    ensures FlatMap([a, b, c, d], enc) == enc(a) + enc(b) + enc(c) + enc(d)
  {
    var none: seq<V> := [];
    assert none + [a] == [a] && [a] + [b] == [a, b] && [a, b] + [c] == [a, b, c] && [a, b, c] + [d] == [a, b, c, d];
    assert FlatMap(none, enc) == [] && [] + enc(a) == enc(a);
    hide FlatMap;
    FlatMapLast(none, a, enc);
    FlatMapLast([a], b, enc);
    FlatMapLast([a, b], c, enc);
    FlatMapLast([a, b, c], d, enc);
  }

  lemma BodyOfFour(a: Value, b: Value, c: Value, d: Value)
    ensures Body([a, b, c, d]) == ValueBytes(a) + ValueBytes(b) + ValueBytes(c) + ValueBytes(d)
  {
    hide ValueBytes, FlatMap;
    FlatMapFour(a, b, c, d, ValueEncoder());
  }

  /** The constants the generator published are the maximum lengths of its schemas. */
  lemma PublishedLengths()
    ensures ValidSchema(SUBMIT) && DataLen(SUBMIT) == 45
    ensures ValidSchema(BYTES) && DataLen(BYTES) == 29
    ensures ValidSchema(ALIASES) && DataLen(ALIASES) == 34
  {
    hide DataLen, ValidSchema;
    SubmitLength();
    BytesLength();
    AliasesLength();
  }
}
