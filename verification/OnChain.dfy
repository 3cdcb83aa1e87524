/** The end of the wire inside the program: a cursor that decodes what the clients send. */
module OnChain {
  import opened Arithmetic
  import opened Orders
  import opened Octets
  import opened Codecs
  import opened Wire
  import opened WireLaws

  /** An argument of the program: its layout, and the check its type makes beyond
      the layout, of every element of a vector or of the bytes of a flat argument.
      A borrowed vector is checked once all of it is there, an owned one element by element. */
  datatype Arg = Arg(shape: Shape, check: seq<Byte> -> bool, borrowed: bool)

  function Shapes(args: seq<Arg>): (r: seq<Shape>)
    ensures |r| == |args|
  {
    seq(|args|, k requires 0 <= k < |args| => args[k].shape)
  }

  /** The parts of an argument that are checked. */
  function Pieces(v: Value): seq<seq<Byte>> {
    match v
    case Raw(bytes) => [bytes]
    case Number(n, width) => [NumberBytes(n, width)]
    case Items(items) => items
    case Text(_) => []
  }

  predicate AllCheck(check: seq<Byte> -> bool, pieces: seq<seq<Byte>>) { forall e :: e in pieces ==> check(e) }

  predicate AllPass(args: seq<Arg>, values: seq<Value>)
    requires |args| == |values|
  {
    forall k :: 0 <= k < |args| ==> AllCheck(args[k].check, Pieces(values[k]))
  }

  // -------------------------------------------------------------------------
  // The decoder, over the bytes after the tag.
  // -------------------------------------------------------------------------

  datatype ProgramError = InvalidData

  /** What the layout lets through and the check does not is refused. */
  function Checked(check: seq<Byte> -> bool, r: Result<(Value, nat), ClientError>): Result<(Value, nat), ProgramError> {
    match r
    case Ok((v, end)) => if AllCheck(check, Pieces(v)) then Ok((v, end)) else Err(InvalidData)
    case Err(_) => Err(InvalidData)
  }

  function OnChainStep(utf8: seq<Byte> -> bool): Step<Arg, Value, ProgramError> {
    (a: Arg, data: seq<Byte>, offset: nat) => Checked(a.check, ValueStep(utf8)(a.shape, data, offset))
  }

  /** Every argument in turn, and then nothing left. */
  function OnChainDecoded(utf8: seq<Byte> -> bool, args: seq<Arg>, data: seq<Byte>): Result<seq<Value>, ProgramError> {
    var (values, end) :- Run(OnChainStep(utf8), args, data, 0);
    if end == |data| then Ok(values) else Err(InvalidData)
  }

  lemma NextChunk(data: seq<Byte>, offset: nat, width: nat, i: nat)
    requires offset + 2 + i * width + width <= |data| && i * width + width == (i + 1) * width
    ensures Chunks(data[offset + 2..offset + 2 + (i + 1) * width], width, i + 1)
         == Chunks(data[offset + 2..offset + 2 + i * width], width, i)
            + [data[offset..][2 + i * width..2 + i * width + width]]
  {
    var bytes := data[offset + 2..offset + 2 + (i + 1) * width];
    assert bytes[..i * width] == data[offset + 2..offset + 2 + i * width];
    assert bytes[i * width..] == data[offset..][2 + i * width..2 + i * width + width];
  }

  lemma NoChunks(bytes: seq<Byte>, width: nat)
    requires bytes == []
    ensures Chunks(bytes, width, 0) == []
  {}

  /** When all chunks pass, the first ones do. */
  lemma {:induction false} ChunksGrow(check: seq<Byte> -> bool, bytes: seq<Byte>, width: nat, i: nat, count: nat)
    requires i <= count && i * width <= count * width == |bytes|
    ensures AllCheck(check, Chunks(bytes, width, count)) ==> AllCheck(check, Chunks(bytes[..i * width], width, i))
  {
    if i < count {
      ChunkFits(i, count, width);
      assert (count - 1) * width + width == count * width;
      var init := bytes[..(count - 1) * width];
      assert forall e :: e in Chunks(init, width, count - 1) ==> e in Chunks(bytes, width, count);
      assert i * width <= (count - 1) * width by { TimesMonotone(width, i, count - 1); }
      assert init[..i * width] == bytes[..i * width];
      ChunksGrow(check, init, width, i, count - 1);
    } else {
      assert bytes[..i * width] == bytes;
    }
  }

  method CheckAll(check: seq<Byte> -> bool, items: seq<seq<Byte>>) returns (ok: bool)
    ensures ok == AllCheck(check, items)
  {
    for k := 0 to |items|
      invariant forall i :: 0 <= i < k ==> check(items[i])
    {
      if !check(items[k]) { return false; }
    }
    ok := true;
  }

  class Decoder {
    const data: seq<Byte>
    var offset: nat

    ghost predicate Valid()
      reads this
    {
      offset <= |data|
    }

    constructor (data: seq<Byte>)
      ensures Valid() && this.data == data && offset == 0
    {
      this.data := data;
      offset := 0;
    }

    function Remaining(): (rest: seq<Byte>)
      requires Valid()
      reads this
      ensures data[..offset] + rest == data
    {
      data[offset..]
    }

    /** Succeeds exactly when every byte was consumed. */
    method Finish() returns (r: Result<(), ProgramError>)
      requires Valid()
      ensures r.Ok? <==> Remaining() == []
    {
      r := if offset == |data| then Ok(()) else Err(InvalidData);
    }

    method TakeRemaining() returns (rest: seq<Byte>)
      requires Valid()
      modifies this
      ensures Valid() && rest == old(Remaining()) && Remaining() == []
    {
      rest := data[offset..];
      offset := |data|;
    }

    /** The next `len` bytes, or a refusal that leaves the cursor where it was. */
    method Take(len: nat) returns (r: Result<seq<Byte>, ProgramError>)
      requires Valid()
      modifies this
      ensures Valid()
      ensures if old(offset) + len <= |data|
        then offset == old(offset) + len && r == Ok(data[old(offset)..offset])
        else r == Err(InvalidData) && offset == old(offset)
    {
      var end := offset + len;
      if end > |data| { return Err(InvalidData); }
      r := Ok(data[offset..end]);
      offset := end;
    }

    /** The length prefix at the cursor, when it is within the capacity. */
    method PeekCount(cap: nat) returns (count: Option<nat>)
      requires Valid()
      ensures count == match PrefixAt(cap, data, offset) case Ok(n) => Some(n) case Err(_) => None
      ensures count.Some? ==> offset + 2 <= |data|
    {
      var input := Remaining();
      if |input| < 2 { return None; }
      var n := FromLe16(input[0], input[1]);
      if n > cap { return None; }
      count := Some(n);
    }

    /** Owned elements, read and checked one by one out of the rest of the
        payload, the cursor untouched. */
    method ReadItems(check: seq<Byte> -> bool, width: nat, count: nat) returns (items: Option<seq<seq<Byte>>>)
      requires Valid() && offset + 2 <= |data|
      ensures var end := offset + 2 + count * width;
        items == if end <= |data| && AllCheck(check, Chunks(data[offset + 2..end], width, count))
          then Some(Chunks(data[offset + 2..end], width, count)) else None
    {
      hide Chunks;
      NoChunks(data[offset + 2..offset + 2], width);
      var input := data[offset..];
      var cursor := 2;
      var read := [];
      var i := 0;
      while i < count
        invariant 0 <= i <= count
        invariant cursor == 2 + i * width <= |input|
        invariant read == Chunks(data[offset + 2..offset + 2 + i * width], width, i)
        invariant AllCheck(check, read)
        decreases count - i
      {
        ChunkFits(i, count, width);
        if |input| < cursor + width { return None; }
        NextChunk(data, offset, width, i);
        var item := input[cursor..cursor + width];
        if !check(item) {
          NoneAfter(check, offset, width, i, count);
          return None;
        }
        read := read + [item];
        cursor := cursor + width;
        i := i + 1;
      }
      items := Some(read);
    }

    /** An element that fails its check fails the vector. */
    lemma NoneAfter(check: seq<Byte> -> bool, offset: nat, width: nat, i: nat, count: nat)
      requires i < count && offset + 2 + (i + 1) * width <= |data|
      requires !AllCheck(check, Chunks(data[offset + 2..offset + 2 + (i + 1) * width], width, i + 1))
      ensures var end := offset + 2 + count * width;
        end <= |data| ==> !AllCheck(check, Chunks(data[offset + 2..end], width, count))
    {
      hide Chunks, AllCheck;
      var end := offset + 2 + count * width;
      if end <= |data| {
        TimesMonotone(width, i + 1, count);
        assert data[offset + 2..end][..(i + 1) * width] == data[offset + 2..offset + 2 + (i + 1) * width];
        ChunksGrow(check, data[offset + 2..end], width, i + 1, count);
      }
    }

    /** Borrowed elements: checked in place once all of them are there. */
    method BorrowItems(check: seq<Byte> -> bool, width: nat, count: nat) returns (items: Option<seq<seq<Byte>>>)
      requires Valid() && offset + 2 <= |data| && width > 0
      ensures var end := offset + 2 + count * width;
        items == if end <= |data| && AllCheck(check, Chunks(data[offset + 2..end], width, count))
          then Some(Chunks(data[offset + 2..end], width, count)) else None
    {
      hide Chunks, AllCheck;
      var end := offset + 2 + count * width;
      if end > |data| { return None; }
      var values := SplitChunks(data[offset + 2..end], width, count);
      var ok := CheckAll(check, values);
      items := if ok then Some(values) else None;
    }

    method DecodeVec(utf8: seq<Byte> -> bool, a: Arg) returns (r: Result<Value, ProgramError>)
      requires Valid() && a.shape.Vec? && ValidShape(a.shape)
      modifies this
      ensures Valid()
      ensures match Checked(a.check, ValueAt(utf8, a.shape, data, old(offset)))
        case Ok((v, end)) => r == Ok(v) && offset == end
        case Err(_) => r == Err(InvalidData) && offset == old(offset)
    {
      hide Chunks, PrefixAt, AllCheck;
      var count := PeekCount(a.shape.cap);
      if count.None? { return Err(InvalidData); }
      var items;
      if a.borrowed {
        items := BorrowItems(a.check, a.shape.width, count.value);
      } else {
        items := ReadItems(a.check, a.shape.width, count.value);
      }
      if items.None? { return Err(InvalidData); }
      var taken := Take(2 + count.value * a.shape.width);
      r := Ok(Items(items.value));
    }

    method DecodeStr(utf8: seq<Byte> -> bool, cap: nat) returns (r: Result<Value, ProgramError>)
      requires Valid()
      modifies this
      ensures Valid()
      ensures match ValueAt(utf8, Str(cap), data, old(offset))
        case Ok((v, end)) => r == Ok(v) && offset == end
        case Err(_) => r == Err(InvalidData) && offset == old(offset)
    {
      var count := PeekCount(cap);
      if count.None? || |data| < offset + 2 + count.value { return Err(InvalidData); }
      var text := data[offset + 2..offset + 2 + count.value];
      if !utf8(text) { return Err(InvalidData); }
      var taken := Take(2 + count.value);
      r := Ok(Text(text));
    }

    /** Where a refusal leaves the cursor: behind the bytes of a flat argument
        that were taken before they were checked. */
    ghost function Stuck(s: Shape, offset: nat): nat {
      if s.Flat() && offset + s.width <= |data| then offset + s.width else offset
    }

    /** One bounded or flat argument. */
    method DecodeArg(utf8: seq<Byte> -> bool, a: Arg) returns (r: Result<Value, ProgramError>)
      requires Valid() && ValidShape(a.shape)
      modifies this
      ensures Valid()
      ensures match Checked(a.check, ValueAt(utf8, a.shape, data, old(offset)))
        case Ok((v, end)) => r == Ok(v) && offset == end
        case Err(_) => r == Err(InvalidData) && offset == Stuck(a.shape, old(offset))
    {
      match a.shape {
        case Fixed(width) =>
          var bytes := Take(width);
          if bytes.Err? || !a.check(bytes.value) { return Err(InvalidData); }
          r := Ok(Raw(bytes.value));
        case Num(width) =>
          var bytes := Take(width);
          if bytes.Err? { return Err(InvalidData); }
          NumberWrites(bytes.value);
          if !a.check(bytes.value) { return Err(InvalidData); }
          r := Ok(Number(FromLe(bytes.value), width));
        case Vec(_, _) => r := DecodeVec(utf8, a);
        case Str(cap) => r := DecodeStr(utf8, cap);
      }
    }
  }

  lemma StepIsValueAt(utf8: seq<Byte> -> bool, a: Arg, data: seq<Byte>, offset: nat)
    requires offset <= |data|
    ensures OnChainStep(utf8)(a, data, offset) == Checked(a.check, ValueAt(utf8, a.shape, data, offset))
  {
    assert ValueStep(utf8)(a.shape, data, offset) == ValueAt(utf8, a.shape, data, offset);
  }

  /** What a generated handler runs: every argument, then `finish`. */
  method DecodePayload(utf8: seq<Byte> -> bool, args: seq<Arg>, data: seq<Byte>)
    returns (r: Result<seq<Value>, ProgramError>)
    requires ValidSchema(Shapes(args))
    ensures r == OnChainDecoded(utf8, args, data)
  {
    var decoder := new Decoder(data);
    var values := [];
    for k := 0 to |args|
      invariant decoder.Valid() && decoder.data == data
      invariant Run(OnChainStep(utf8), args[..k], data, 0) == Ok((values, decoder.offset))
    {
      RunNext(OnChainStep(utf8), args, data, 0, k);
      if Run(OnChainStep(utf8), args[..k + 1], data, 0).Err? { RunFails(OnChainStep(utf8), args, data, 0, k + 1); }
      ghost var before := decoder.offset;
      StepIsValueAt(utf8, args[k], data, before);
      assert Shapes(args)[k] in Shapes(args);
      var v := decoder.DecodeArg(utf8, args[k]);
      if v.Err? { return Err(InvalidData); }
      values := values + [v.value];
    }
    assert args[..|args|] == args;
    var done := decoder.Finish();
    if done.Err? { return Err(InvalidData); }
    r := Ok(values);
  }

  // -------------------------------------------------------------------------
  // Agreement of the two ends.
  // -------------------------------------------------------------------------

  /** What an argument accepted by the program satisfies. */
  ghost function Passing(utf8: seq<Byte> -> bool): (Arg, Value) -> bool {
    (a: Arg, v: Value) => Acceptable(utf8)(a.shape, v) && AllCheck(a.check, Pieces(v))
  }

  lemma OnChainLaws(utf8: seq<Byte> -> bool, a: Arg, v: Value, data: seq<Byte>)
    requires ValidShape(a.shape)
    ensures WritesBack(OnChainStep(utf8), ValueEncoder(), Passing(utf8), a, data)
    ensures Passing(utf8)(a, v) ==> ReadsBack(OnChainStep(utf8), a, v, ValueEncoder()(v))
  {
    hide ValueAt, Typed, WithinCap, ValueBytes, ValueStep, AllCheck, Pieces;
    ValueWrites(utf8, a.shape, data);
    forall offset: nat, w, end | offset <= |data| && OnChainStep(utf8)(a, data, offset) == Ok((w, end))
      ensures offset <= end <= |data| && Passing(utf8)(a, w) && ValueEncoder()(w) == data[offset..end]
    {
      assert ValueStep(utf8)(a.shape, data, offset) == Ok((w, end));
    }
    if Passing(utf8)(a, v) {
      ValueReads(utf8, a.shape, v);
      var bytes := ValueEncoder()(v);
      forall pre, rest ensures OnChainStep(utf8)(a, pre + bytes + rest, |pre|) == Ok((v, |pre| + |bytes|)) {
        assert ValueStep(utf8)(a.shape, pre + bytes + rest, |pre|) == Ok((v, |pre| + |bytes|));
      }
    }
  }

  /** These arguments fit the layouts and pass every check. */
  ghost predicate Welcome(utf8: seq<Byte> -> bool, args: seq<Arg>, values: seq<Value>) {
    && |args| == |values|
    && AllTyped(utf8, Shapes(args), values) && AllWithinCap(Shapes(args), values)
    && AllPass(args, values)
  }

  lemma PassingMeans(utf8: seq<Byte> -> bool, a: Arg, v: Value)
    ensures Passing(utf8)(a, v) <==> Typed(utf8, a.shape, v) && WithinCap(a.shape, v) && AllCheck(a.check, Pieces(v))
  {
    assert Acceptable(utf8)(a.shape, v) <==> Typed(utf8, a.shape, v) && WithinCap(a.shape, v);
  }

  lemma WelcomePasses(utf8: seq<Byte> -> bool, args: seq<Arg>, values: seq<Value>)
    ensures Welcome(utf8, args, values)
       <==> |args| == |values| && forall k :: 0 <= k < |args| ==> Passing(utf8)(args[k], values[k])
  {
    hide Typed, WithinCap, AllCheck, Pieces, Passing;
    if |args| == |values| {
      forall k | 0 <= k < |args|
        ensures Passing(utf8)(args[k], values[k])
           <==> && Typed(utf8, Shapes(args)[k], values[k]) && WithinCap(Shapes(args)[k], values[k])
                && AllCheck(args[k].check, Pieces(values[k]))
      {
        PassingMeans(utf8, args[k], values[k]);
      }
    }
  }

  /** The program accepts a payload, with these arguments, exactly when it is
      their encoding and every element passes its check. */
  lemma OnChainExact(utf8: seq<Byte> -> bool, args: seq<Arg>, data: seq<Byte>, values: seq<Value>)
    requires ValidSchema(Shapes(args))
    ensures OnChainDecoded(utf8, args, data) == Ok(values) <==> Welcome(utf8, args, values) && data == Body(values)
  {
    hide Welcome, Passing, OnChainStep, WritesBack, ReadsBack, ValidShape, Run, FlatMap;
    ShapesValid(args);
    WelcomePasses(utf8, args, values);
    if OnChainDecoded(utf8, args, data) == Ok(values) {
      forall a | a in args ensures WritesBack(OnChainStep(utf8), ValueEncoder(), Passing(utf8), a, data) {
        OnChainLaws(utf8, a, Raw([]), data);
      }
      RunWritesBack(OnChainStep(utf8), ValueEncoder(), Passing(utf8), args, data, 0);
    }
    if Welcome(utf8, args, values) && data == Body(values) {
      forall k | 0 <= k < |args|
        ensures ReadsBack(OnChainStep(utf8), args[k], values[k], ValueEncoder()(values[k]))
      {
        OnChainLaws(utf8, args[k], values[k], data);
      }
      RunReadsBack(OnChainStep(utf8), ValueEncoder(), args, values, [], []);
      assert [] + Body(values) + [] == Body(values);
    }
  }

  lemma ShapesValid(args: seq<Arg>)
    requires ValidSchema(Shapes(args))
    ensures forall a :: a in args ==> ValidShape(a.shape)
  {
    forall a | a in args ensures ValidShape(a.shape) {
      var k :| 0 <= k < |args| && args[k] == a;
      assert Shapes(args)[k] in Shapes(args);
    }
  }

  /** The program accepts exactly the payloads the client decoder accepts whose
      elements all pass, and with the same arguments. */
  lemma EndsAgree(utf8: seq<Byte> -> bool, tag: Byte, args: seq<Arg>, payload: seq<Byte>, values: seq<Value>)
    requires ValidSchema(Shapes(args))
    ensures OnChainDecoded(utf8, args, payload) == Ok(values)
       <==> Decoded(utf8, tag, Shapes(args), [tag] + payload) == Ok(values)
            && |values| == |args| && AllPass(args, values)
  {
    hide Decoded, OnChainDecoded, AllTyped, AllWithinCap, AllPass, ValidSchema;
    OnChainExact(utf8, args, payload, values);
    if OnChainDecoded(utf8, args, payload) == Ok(values) {
      assert Encoded(tag, Shapes(args), values) == Ok([tag] + payload);
      DecodeInvertsEncode(utf8, tag, Shapes(args), values);
    }
    if Decoded(utf8, tag, Shapes(args), [tag] + payload) == Ok(values) {
      EncodeInvertsDecode(utf8, tag, Shapes(args), [tag] + payload);
      assert ([tag] + payload)[1..] == payload && ([tag] + Body(values))[1..] == Body(values);
    }
  }

  // -------------------------------------------------------------------------
  // The submitted orders: an optional side in two bytes, then an amount.
  // -------------------------------------------------------------------------

  /** No side at all, whatever stands in its place, or one of the two sides there are. */
  predicate IsOrder(e: seq<Byte>) {
    |e| == 10 && (e[0] == 0 || (e[0] == 1 && e[1] in {1, 7}))
  }

  /** Which bytes may stand for the side of an order. */
  lemma OrderSides(tag: Byte, side: Byte, amount: seq<Byte>)
    requires |amount| == 8
    ensures IsOrder([tag, side] + amount) <==> tag == 0 || (tag == 1 && (side == 1 || side == 7))
  {}

  function SubmitArgs(): seq<Arg> {
    [Arg(Vec(4, 10), (e: seq<Byte>) => IsOrder(e), true), Arg(Num(2), (_: seq<Byte>) => true, true)]
  }

  /** A submission the client decoder accepts is accepted by the program exactly
      when every order is one. */
  lemma SubmitExact(utf8: seq<Byte> -> bool, payload: seq<Byte>, orders: seq<seq<Byte>>, nonce: int)
    ensures OnChainDecoded(utf8, SubmitArgs(), payload) == Ok([Items(orders), Number(nonce, 2)])
       <==> Decoded(utf8, 0, SUBMIT, [0] + payload) == Ok([Items(orders), Number(nonce, 2)])
            && forall e :: e in orders ==> IsOrder(e)
  {
    var args, values := SubmitArgs(), [Items(orders), Number(nonce, 2)];
    assert Shapes(args) == SUBMIT;
    SubmitLength();
    EndsAgree(utf8, 0, args, payload, values);
    assert AllPass(args, values) <==> AllCheck(args[0].check, orders) by {
      assert AllCheck(args[1].check, Pieces(values[1]));
      assert Pieces(values[0]) == orders;
    }
  }

  /** One order whose side is tagged 9: the client decoder accepts what the program refuses. */
  lemma MalformedOrderRefused(utf8: seq<Byte> -> bool)
    ensures var values := [Items([[9, 0, 0, 0, 0, 0, 0, 0, 0, 0]]), Number(0, 2)];
      && Decoded(utf8, 0, SUBMIT, [0] + Body(values)) == Ok(values)
      && OnChainDecoded(utf8, SubmitArgs(), Body(values)) == Err(InvalidData)
  {
    hide Body, FlatMap, Decoded, OnChainDecoded, Run;
    var order := [9, 0, 0, 0, 0, 0, 0, 0, 0, 0];
    var values := [Items([order]), Number(0, 2)];
    SubmitLength();
    assert AllTyped(utf8, SUBMIT, values) && AllWithinCap(SUBMIT, values);
    DecodeInvertsEncode(utf8, 0, SUBMIT, values);
    assert order in [order] && !IsOrder(order);
    OnlyThese(utf8, Body(values), values);
    SubmitExact(utf8, Body(values), [order], 0);
  }

  /** Where the client decoder accepts, the program accepts with the same arguments or not at all. */
  lemma OnlyThese(utf8: seq<Byte> -> bool, payload: seq<Byte>, values: seq<Value>)
    requires Decoded(utf8, 0, SUBMIT, [0] + payload) == Ok(values)
    ensures var r := OnChainDecoded(utf8, SubmitArgs(), payload); r == Ok(values) || r == Err(InvalidData)
  {
    hide Decoded, OnChainDecoded, AllPass;
    SubmitLength();
    assert Shapes(SubmitArgs()) == SUBMIT;
    var r := OnChainDecoded(utf8, SubmitArgs(), payload);
    match r {
      case Ok(read) => EndsAgree(utf8, 0, SubmitArgs(), payload, read);
      case Err(InvalidData) =>
    }
  }
}
