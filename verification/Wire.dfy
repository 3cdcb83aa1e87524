/** The bounded instruction wire format: the generated clients, for any schema. */
module Wire {
  import opened Orders
  import opened Octets
  import opened Codecs

  /** How one argument is laid out: fixed bytes, an unsigned number, a vector of
      `width`-byte elements, a string. */
  datatype Shape = Fixed(width: nat) | Num(width: nat) | Vec(cap: nat, width: nat) | Str(cap: nat) {
    /** No count in front. */
    predicate Flat() { Fixed? || Num? }
  }

  /** An argument value as wire bytes, a string as its UTF-8 encoding, or a number
      as the caller gave it, for an argument of `width` bytes. */
  datatype Value =
    | Raw(bytes: seq<Byte>)
    | Number(n: int, width: nat)
    | Items(items: seq<seq<Byte>>)
    | Text(text: seq<Byte>)

  datatype ClientError =
    | InvalidInstructionData
    | BufferTooSmall(need: nat, got: nat)
    | InstructionTagMismatch(expected: Byte, actual: Byte)

  /** Counts are 16-bit, and vector elements are not empty. */
  predicate ValidShape(s: Shape) {
    match s
    case Fixed(_) => true
    case Num(_) => true
    case Vec(cap, width) => cap < 0x1_0000 && width > 0
    case Str(cap) => cap < 0x1_0000
  }

  predicate ValidSchema(schema: seq<Shape>) {
    forall s :: s in schema ==> ValidShape(s)
  }

  predicate InRange(n: int, width: nat) { 0 <= n < Pow256(width) }

  /** What the argument types guarantee before any check runs. */
  ghost predicate Typed(utf8: seq<Byte> -> bool, s: Shape, v: Value) {
    match (s, v)
    case (Fixed(width), Raw(bytes)) => |bytes| == width
    case (Num(width), Number(n, w)) => w == width && InRange(n, width)
    case (Vec(_, width), Items(items)) => forall e :: e in items ==> |e| == width
    case (Str(_), Text(text)) => utf8(text)
    case _ => false
  }

  ghost predicate AllTyped(utf8: seq<Byte> -> bool, schema: seq<Shape>, values: seq<Value>) {
    |schema| == |values| && forall k :: 0 <= k < |schema| ==> Typed(utf8, schema[k], values[k])
  }

  /** Count of elements or bytes a capacity limits. */
  function Count(v: Value): nat {
    match v case Raw(_) => 0 case Number(_, _) => 0 case Items(items) => |items| case Text(text) => |text|
  }

  predicate WithinCap(s: Shape, v: Value) {
    match s case Vec(cap, _) => Count(v) <= cap case Str(cap) => Count(v) <= cap case _ => true
  }

  predicate AllWithinCap(schema: seq<Shape>, values: seq<Value>)
    requires |schema| == |values|
  {
    forall k :: 0 <= k < |schema| ==> WithinCap(schema[k], values[k])
  }

  function Joined(items: seq<seq<Byte>>): seq<Byte> {
    if items == [] then [] else Joined(items[..|items| - 1]) + items[|items| - 1]
  }

  /** A count as it is cast to 16 bits. */
  function Prefix(n: nat): (r: seq<Byte>)
    ensures |r| == 2
  {
    Le16(n % 0x1_0000)
  }

  /** The low bytes of a number: exact in range, wrapped around outside it. */
  function NumberBytes(n: int, width: nat): (r: seq<Byte>)
    ensures |r| == width
  {
    LeBytes(n % Pow256(width), width)
  }

  function ValueBytes(v: Value): seq<Byte> {
    match v
    case Raw(bytes) => bytes
    case Number(n, width) => NumberBytes(n, width)
    case Items(items) => Prefix(|items|) + Joined(items)
    case Text(text) => Prefix(|text|) + text
  }

  function ValueEncoder(): Value -> seq<Byte> { (v: Value) => ValueBytes(v) }

  function Body(values: seq<Value>): seq<Byte> { FlatMap(values, ValueEncoder()) }

  // -------------------------------------------------------------------------
  // Encoding: every capacity is checked first, then everything is appended.
  // -------------------------------------------------------------------------

  function Encoded(tag: Byte, schema: seq<Shape>, values: seq<Value>): Result<seq<Byte>, ClientError>
    requires |schema| == |values|
  {
    if AllWithinCap(schema, values) then Ok([tag] + Body(values)) else Err(InvalidInstructionData)
  }

  lemma JoinedNext(items: seq<seq<Byte>>, k: nat)
    requires k < |items|
    ensures Joined(items[..k + 1]) == Joined(items[..k]) + items[k]
  {
    assert items[..k + 1][..k] == items[..k];
  }

  method AppendValue(data: ByteVec, v: Value)
    modifies data
    ensures data.bytes == old(data.bytes) + ValueBytes(v)
  {
    match v {
      case Raw(bytes) => data.Extend(bytes);
      case Number(n, width) => data.Extend(NumberBytes(n, width));
      case Items(items) =>
        data.Extend(Prefix(|items|));
        ghost var start := data.bytes;
        for k := 0 to |items|
          invariant data.bytes == start + Joined(items[..k])
        {
          JoinedNext(items, k);
          Assoc(start, Joined(items[..k]), items[k]);
          data.Extend(items[k]);
        }
        assert items[..|items|] == items;
        Assoc(old(data.bytes), Prefix(|items|), Joined(items));
      case Text(text) =>
        data.Extend(Prefix(|text|));
        data.Extend(text);
        Assoc(old(data.bytes), Prefix(|text|), text);
    }
  }

  /** The Rust client's encoder. */
  method EncodeData(tag: Byte, schema: seq<Shape>, values: seq<Value>) returns (r: Result<seq<Byte>, ClientError>)
    requires |schema| == |values|
    ensures r == Encoded(tag, schema, values)
  {
    for k := 0 to |schema|
      invariant forall i :: 0 <= i < k ==> WithinCap(schema[i], values[i])
    {
      if !WithinCap(schema[k], values[k]) { return Err(InvalidInstructionData); }
    }
    var data := new ByteVec();
    data.Push(tag);
    for k := 0 to |values|
      invariant data.bytes == [tag] + Body(values[..k])
    {
      FlatMapNext(values, ValueEncoder(), k);
      Assoc([tag], Body(values[..k]), ValueBytes(values[k]));
      AppendValue(data, values[k]);
    }
    assert values[..|values|] == values;
    r := Ok(data.bytes);
  }

  // -------------------------------------------------------------------------
  // Decoding: an offset that moves past each argument.
  // -------------------------------------------------------------------------

  /** Consecutive chunks of `width` bytes. */
  function Chunks(bytes: seq<Byte>, width: nat, count: nat): seq<seq<Byte>>
    requires |bytes| == count * width
  {
    if count == 0 then []
    else
      assert (count - 1) * width + width == count * width;
      Chunks(bytes[..(count - 1) * width], width, count - 1) + [bytes[(count - 1) * width..]]
  }

  /** A length prefix at `offset`, no greater than `cap`. */
  function PrefixAt(cap: nat, data: seq<Byte>, offset: nat): Result<nat, ClientError>
    requires offset <= |data|
  {
    if |data| < offset + 2 then Err(BufferTooSmall(offset + 2, |data|))
    else
      var count := FromLe16(data[offset], data[offset + 1]);
      if count > cap then Err(InvalidInstructionData) else Ok(count)
  }

  /** The argument at `offset` and the offset after it. */
  function ValueAt(utf8: seq<Byte> -> bool, s: Shape, data: seq<Byte>, offset: nat)
    : (r: Result<(Value, nat), ClientError>)
    requires offset <= |data|
    ensures r.Ok? ==> offset <= r.value.1 <= |data|
  {
    match s
    case Fixed(width) =>
      var end := offset + width;
      if |data| < end then Err(BufferTooSmall(end, |data|))
      else Ok((Raw(data[offset..end]), end))
    case Num(width) =>
      var end := offset + width;
      if |data| < end then Err(BufferTooSmall(end, |data|))
      else Ok((Number(FromLe(data[offset..end]), width), end))
    case Vec(cap, width) =>
      var count :- PrefixAt(cap, data, offset);
      var end := offset + 2 + count * width;
      if |data| < end then Err(BufferTooSmall(end, |data|))
      else Ok((Items(Chunks(data[offset + 2..end], width, count)), end))
    case Str(cap) =>
      var count :- PrefixAt(cap, data, offset);
      var end := offset + 2 + count;
      if |data| < end then Err(BufferTooSmall(end, |data|))
      else if utf8(data[offset + 2..end]) then Ok((Text(data[offset + 2..end]), end))
      else Err(InvalidInstructionData)
  }

  function ValueStep(utf8: seq<Byte> -> bool): Step<Shape, Value, ClientError> {
    (s: Shape, data: seq<Byte>, offset: nat) =>
      if offset <= |data| then ValueAt(utf8, s, data, offset) else Err(InvalidInstructionData)
  }

  /** The arguments of the whole schema, from offset 1 on. */
  function ValuesAt(utf8: seq<Byte> -> bool, schema: seq<Shape>, data: seq<Byte>)
    : Result<(seq<Value>, nat), ClientError>
  {
    Run(ValueStep(utf8), schema, data, 1)
  }

  function Decoded(utf8: seq<Byte> -> bool, tag: Byte, schema: seq<Shape>, data: seq<Byte>)
    : Result<seq<Value>, ClientError>
  {
    if data == [] then Err(BufferTooSmall(1, 0))
    else if data[0] != tag then Err(InstructionTagMismatch(tag, data[0]))
    else
      var (values, offset) :- ValuesAt(utf8, schema, data);
      if offset != |data| then Err(InvalidInstructionData) else Ok(values)
  }

  method SplitChunks(bytes: seq<Byte>, width: nat, count: nat) returns (values: seq<seq<Byte>>)
    requires |bytes| == count * width && width > 0
    ensures values == Chunks(bytes, width, count)
  {
    values := [];
    for k := 0 to count
      invariant k * width <= |bytes|
      invariant values == Chunks(bytes[..k * width], width, k)
    {
      ChunkFits(k, count, width);
      var chunk := bytes[k * width..(k + 1) * width];
      assert bytes[..(k + 1) * width][..k * width] == bytes[..k * width];
      assert bytes[..(k + 1) * width][k * width..] == chunk;
      values := values + [chunk];
    }
    assert bytes[..count * width] == bytes;
  }

  lemma ChunkFits(k: nat, count: nat, width: nat)
    requires k < count
    ensures k * width + width == (k + 1) * width <= count * width
  {}

  method DecodeValue(utf8: seq<Byte> -> bool, s: Shape, data: seq<Byte>, offset: nat)
    returns (r: Result<(Value, nat), ClientError>)
    requires offset <= |data| && ValidShape(s)
    ensures r == ValueAt(utf8, s, data, offset)
  {
    match s {
      case Fixed(width) =>
        var end := offset + width;
        if |data| < end { return Err(BufferTooSmall(end, |data|)); }
        r := Ok((Raw(data[offset..end]), end));
      case Num(width) =>
        var end := offset + width;
        if |data| < end { return Err(BufferTooSmall(end, |data|)); }
        r := Ok((Number(FromLe(data[offset..end]), width), end));
      case Vec(cap, width) =>
        var prefixEnd := offset + 2;
        if |data| < prefixEnd { return Err(BufferTooSmall(prefixEnd, |data|)); }
        var count := FromLe16(data[offset], data[offset + 1]);
        if count > cap { return Err(InvalidInstructionData); }
        var end := prefixEnd + count * width;
        if |data| < end { return Err(BufferTooSmall(end, |data|)); }
        var items := SplitChunks(data[prefixEnd..end], width, count);
        r := Ok((Items(items), end));
      case Str(cap) =>
        var prefixEnd := offset + 2;
        if |data| < prefixEnd { return Err(BufferTooSmall(prefixEnd, |data|)); }
        var count := FromLe16(data[offset], data[offset + 1]);
        if count > cap { return Err(InvalidInstructionData); }
        var end := prefixEnd + count;
        if |data| < end { return Err(BufferTooSmall(end, |data|)); }
        if !utf8(data[prefixEnd..end]) { return Err(InvalidInstructionData); }
        r := Ok((Text(data[prefixEnd..end]), end));
    }
  }

  /** The Rust client's decoder. */
  method DecodeArgs(utf8: seq<Byte> -> bool, tag: Byte, schema: seq<Shape>, data: seq<Byte>)
    returns (r: Result<seq<Value>, ClientError>)
    requires ValidSchema(schema)
    ensures r == Decoded(utf8, tag, schema, data)
  {
    if data == [] { return Err(BufferTooSmall(1, 0)); }
    if data[0] != tag { return Err(InstructionTagMismatch(tag, data[0])); }
    var offset := 1;
    var values := [];
    for k := 0 to |schema|
      invariant offset <= |data|
      invariant ValuesAt(utf8, schema[..k], data) == Ok((values, offset))
    {
      RunNext(ValueStep(utf8), schema, data, 1, k);
      if ValuesAt(utf8, schema[..k + 1], data).Err? { RunFails(ValueStep(utf8), schema, data, 1, k + 1); }
      var next := DecodeValue(utf8, schema[k], data, offset);
      match next {
        case Err(e) => return Err(e);
        case Ok((v, end)) =>
          values := values + [v];
          offset := end;
      }
    }
    assert schema[..|schema|] == schema;
    if offset != |data| { return Err(InvalidInstructionData); }
    r := Ok(values);
  }
}
