/** The clients whose types do not fix what they are given: one fills a buffer,
    the other joins parts. */
module Clients {
  import opened Orders
  import opened Octets
  import opened Codecs
  import opened Strings
  import opened Wire
  import opened WireLaws

  // -------------------------------------------------------------------------
  // Clients whose types do not fix widths check them as well. Only one of them
  // checks numbers and strings.
  // -------------------------------------------------------------------------

  datatype Client = TypeScript | Python

  /** An argument before its string, if it is one, is encoded. */
  datatype Given =
    | Blob(bytes: seq<Byte>)
    | Whole(n: int, width: nat)
    | Blobs(items: seq<seq<Byte>>)
    | Words(units: seq<CodeUnit>)

  /** What the client makes of the argument; `None` is a string it does not encode. */
  function Coded(client: Client, g: Given): Option<Value> {
    match g
    case Blob(bytes) => Some(Raw(bytes))
    case Whole(n, width) => Some(Number(n, width))
    case Blobs(items) => Some(Items(items))
    case Words(units) =>
      match client
      case TypeScript => Some(Text(Lossy(units)))
      case Python => var bytes :- Strict(units); Some(Text(bytes))
  }

  predicate Fits(client: Client, s: Shape, v: Value) {
    match (s, v)
    case (Fixed(width), Raw(bytes)) => |bytes| == width
    case (Num(width), Number(n, w)) => w == width && (client.Python? ==> InRange(n, width))
    case (Vec(cap, width), Items(items)) => |items| <= cap && forall e :: e in items ==> |e| == width
    case (Str(cap), Text(text)) => |text| <= cap
    case _ => false
  }

  predicate AllFit(client: Client, schema: seq<Shape>, values: seq<Value>)
    requires |schema| == |values|
  {
    forall k :: 0 <= k < |schema| ==> Fits(client, schema[k], values[k])
  }

  predicate Accepts(client: Client, s: Shape, g: Given) {
    Coded(client, g).Some? && Fits(client, s, Coded(client, g).value)
  }

  predicate AllAccepted(client: Client, schema: seq<Shape>, given: seq<Given>)
    requires |schema| == |given|
  {
    forall k :: 0 <= k < |schema| ==> Accepts(client, schema[k], given[k])
  }

  function AllCoded(client: Client, given: seq<Given>): (values: seq<Value>)
    requires forall g :: g in given ==> Coded(client, g).Some?
    ensures |values| == |given|
  {
    seq(|given|, k requires 0 <= k < |given| => Coded(client, given[k]).value)
  }

  /** What the client sends; `None` is a thrown error. */
  function Sent(client: Client, tag: Byte, schema: seq<Shape>, given: seq<Given>): Option<seq<Byte>>
    requires |schema| == |given|
  {
    if AllAccepted(client, schema, given) then Some([tag] + Body(AllCoded(client, given))) else None
  }

  /** The values that the typed client is given, string by string as its UTF-8 bytes. */
  ghost predicate Denotes(given: seq<Given>, values: seq<Value>) {
    |given| == |values| && forall k :: 0 <= k < |given| ==> Coded(Python, given[k]) == Some(values[k])
  }

  /** On arguments the Rust types admit, all three clients send the same bytes or refuse alike. */
  lemma ClientsAgree(utf8: seq<Byte> -> bool, client: Client, tag: Byte, schema: seq<Shape>, values: seq<Value>,
                     given: seq<Given>)
    requires AllTyped(utf8, schema, values) && Denotes(given, values)
    ensures Sent(client, tag, schema, given)
         == match Encoded(tag, schema, values) case Ok(data) => Some(data) case Err(_) => None
  {
    forall k | 0 <= k < |schema|
      ensures Coded(client, given[k]) == Some(values[k])
      ensures Accepts(client, schema[k], given[k]) <==> WithinCap(schema[k], values[k])
    {
      assert Typed(utf8, schema[k], values[k]);
      if given[k].Words? { StrictIsLossy(given[k].units); }
    }
    if AllAccepted(client, schema, given) { assert AllCoded(client, given) == values; }
  }

  /** The number fits its width, the string has no half of a pair alone. */
  predicate Exact(g: Given) {
    match g
    case Whole(n, width) => InRange(n, width)
    case Words(units) => WellFormed(units)
    case _ => true
  }

  predicate AllExact(given: seq<Given>) {
    forall k :: 0 <= k < |given| ==> Exact(given[k])
  }

  /** One argument: what Python accepts is what TypeScript accepts and is exact,
      and then both make the same of it. */
  lemma AcceptsExactly(s: Shape, g: Given)
    ensures Accepts(Python, s, g) <==> Accepts(TypeScript, s, g) && Exact(g)
    ensures Exact(g) ==> Coded(Python, g) == Coded(TypeScript, g)
  {
    hide Lossy, WellFormed;
    if g.Words? { StrictIsLossy(g.units); }
  }

  /** On any arguments at all, the TypeScript and Python clients agree exactly when
      every number is in range and every string well formed, unless something
      else makes both refuse. */
  lemma BuildersAgreeExactly(tag: Byte, schema: seq<Shape>, given: seq<Given>)
    requires |schema| == |given|
    ensures Sent(TypeScript, tag, schema, given) == Sent(Python, tag, schema, given)
       <==> (AllAccepted(TypeScript, schema, given) ==> AllExact(given))
  {
    hide Coded, Accepts, Exact, Body;
    forall k | 0 <= k < |schema|
      ensures Accepts(Python, schema[k], given[k]) <==> Accepts(TypeScript, schema[k], given[k]) && Exact(given[k])
      ensures Exact(given[k]) ==> Coded(Python, given[k]) == Coded(TypeScript, given[k])
    {
      AcceptsExactly(schema[k], given[k]);
    }
    AcceptedCoded(TypeScript, schema, given);
    AcceptedCoded(Python, schema, given);
    if AllAccepted(Python, schema, given) {
      assert AllAccepted(TypeScript, schema, given);
      assert AllCoded(TypeScript, given) == AllCoded(Python, given);
    }
  }

  lemma AcceptedCoded(client: Client, schema: seq<Shape>, given: seq<Given>)
    requires |schema| == |given|
    ensures AllAccepted(client, schema, given) ==> forall g :: g in given ==> Coded(client, g).Some?
  {
    if AllAccepted(client, schema, given) {
      forall g | g in given ensures Coded(client, g).Some? {
        var k :| 0 <= k < |given| && given[k] == g;
        assert Accepts(client, schema[k], given[k]);
      }
    }
  }

  /** One number: the two agree exactly when it is in range. */
  lemma NumberAgreesExactly(tag: Byte, n: int, width: nat)
    ensures Sent(TypeScript, tag, [Num(width)], [Whole(n, width)]) == Sent(Python, tag, [Num(width)], [Whole(n, width)])
       <==> 0 <= n < Pow256(width)
  {
    BuildersAgreeExactly(tag, [Num(width)], [Whole(n, width)]);
    assert [Whole(n, width)][0] == Whole(n, width);
  }

  /** A nonce of 65536: TypeScript sends what it sends for zero, Python refuses. */
  lemma NonceWraps()
    ensures
      var wrapped, zero := [Blobs([]), Whole(0x1_0000, 2)], [Blobs([]), Whole(0, 2)];
      && Sent(TypeScript, 0, SUBMIT, wrapped) == Sent(TypeScript, 0, SUBMIT, zero) != None
      && Sent(Python, 0, SUBMIT, wrapped) == None
  {
    hide Body, FlatMap;
    assert Pow256(2) == 0x1_0000 by { assert Pow256(1) == 0x100 * Pow256(0); }
    SubmitSent(0x1_0000);
    SubmitSent(0);
    assert NumberBytes(0x1_0000, 2) == NumberBytes(0, 2);
    assert !Accepts(Python, SUBMIT[1], Whole(0x1_0000, 2));
  }

  /** A submission without orders. */
  lemma SubmitSent(nonce: int)
    ensures Sent(TypeScript, 0, SUBMIT, [Blobs([]), Whole(nonce, 2)])
         == Some([0] + (ValueBytes(Items([])) + NumberBytes(nonce, 2)))
  {
    hide NumberBytes, ValueBytes;
    var given, values := [Blobs([]), Whole(nonce, 2)], [Items([]), Number(nonce, 2)];
    assert AllCoded(TypeScript, given) == values;
    BodyOfTwo(values[0], values[1]);
    assert ValueBytes(values[1]) == NumberBytes(nonce, 2) by { NumberValue(nonce, 2); }
  }

  lemma NumberValue(n: int, width: nat)
    ensures ValueBytes(Number(n, width)) == NumberBytes(n, width)
  {}

  lemma BodyOfTwo(a: Value, b: Value)
    ensures Body([a, b]) == ValueBytes(a) + ValueBytes(b)
  {
    FlatMapNext([a, b], ValueEncoder(), 0);
    FlatMapNext([a, b], ValueEncoder(), 1);
    assert [a, b][..0] == [] && [a, b][..2] == [a, b];
  }

  lemma OnePoint(c: CodeUnit)
    ensures CodePoints([c]) == [c]
  {
    assert [c][1..] == [];
  }

  /** A note of one half of a pair: TypeScript sends what it sends for the
      replacement character, Python refuses. */
  lemma LoneHalfReplaced()
    ensures
      var lone, replacement := [Blobs([]), Words([0xD800])], [Blobs([]), Words([0xFFFD])];
      && Sent(TypeScript, 1, BYTES, lone) == Sent(TypeScript, 1, BYTES, replacement) != None
      && Sent(Python, 1, BYTES, lone) == None
  {
    var lone, replacement := [Blobs([]), Words([0xD800])], [Blobs([]), Words([REPLACEMENT])];
    OnePoint(0xD800);
    OnePoint(REPLACEMENT);
    LossyOne(0xD800);
    LossyOne(REPLACEMENT);
    assert AllCoded(TypeScript, lone) == AllCoded(TypeScript, replacement);
    assert !Accepts(Python, BYTES[1], lone[1]) by { assert 0xD800 in CodePoints([0xD800]); }
  }

  lemma LossyOne(c: CodeUnit)
    ensures Lossy([c]) == LossyEncoder()(c)
  {
    OnePoint(c);
    var points: seq<CodePoint> := CodePoints([c]);
    FlatMapNext(points, LossyEncoder(), 0);
    assert points[..0] == [] && points[..1] == points;
  }

  function TotalSize(values: seq<Value>): nat {
    if values == [] then 0 else TotalSize(values[..|values| - 1]) + |ValueBytes(values[|values| - 1])|
  }

  lemma {:induction false} TotalSizeIsBody(values: seq<Value>)
    ensures TotalSize(values) == |Body(values)|
  {
    if values != [] { TotalSizeIsBody(values[..|values| - 1]); }
  }

  lemma {:induction false} BodyGrows(values: seq<Value>, k: nat)
    requires k <= |values|
    ensures |Body(values[..k])| <= |Body(values)|
  {
    if k < |values| {
      assert values[..|values| - 1][..k] == values[..k];
      BodyGrows(values[..|values| - 1], k);
    } else {
      assert values[..k] == values;
    }
  }

  /** How often each index was written, after one more write of `[lo, hi)`. */
  ghost function Written(writes: seq<nat>, lo: nat, hi: nat): (r: seq<nat>)
    ensures |r| == |writes|
  {
    seq(|writes|, k requires 0 <= k < |writes| => if lo <= k < hi then writes[k] + 1 else writes[k])
  }

  lemma WrittenOn(writes: seq<nat>, lo: nat, mid: nat, hi: nat)
    requires lo <= mid <= hi
    ensures Written(Written(writes, lo, mid), mid, hi) == Written(writes, lo, hi)
    ensures Written(writes, lo, lo) == writes
  {}

  /** A buffer of fixed size that counts the writes to each of its bytes. */
  class Uint8Array {
    const bytes: array<Byte>
    ghost var writes: seq<nat>

    ghost predicate Valid()
      reads this
    {
      |writes| == bytes.Length
    }

    constructor (size: nat)
      ensures Valid() && fresh(bytes) && bytes.Length == size
      ensures forall k :: 0 <= k < size ==> writes[k] == 0
    {
      bytes := new Byte[size](_ => 0);
      writes := seq(size, _ => 0);
    }

    /** `data.set(more, offset)`. */
    method Set(offset: nat, more: seq<Byte>)
      requires Valid() && offset + |more| <= bytes.Length
      modifies this, bytes
      ensures Valid() && writes == Written(old(writes), offset, offset + |more|)
      ensures bytes[..offset] == old(bytes[..offset])
      ensures bytes[offset..offset + |more|] == more
      ensures bytes[offset + |more|..] == old(bytes[offset + |more|..])
    {
      WrittenOn(writes, offset, offset, offset);
      for k := 0 to |more|
        invariant Valid() && writes == Written(old(writes), offset, offset + k)
        invariant bytes[..offset] == old(bytes[..offset])
        invariant bytes[offset..offset + k] == more[..k]
        invariant bytes[offset + |more|..] == old(bytes[offset + |more|..])
      {
        bytes[offset + k] := more[k];
        writes := writes[offset + k := writes[offset + k] + 1];
        assert bytes[offset..offset + k + 1] == bytes[offset..offset + k] + [more[k]];
      }
    }
  }

  /** `now` is `was` with `more` put at `offset` and nothing else changed. */
  ghost predicate PutAt(was: seq<Byte>, now: seq<Byte>, offset: nat, more: seq<Byte>) {
    && offset + |more| <= |was| == |now|
    && now[..offset] == was[..offset]
    && now[offset..offset + |more|] == more
    && now[offset + |more|..] == was[offset + |more|..]
  }

  lemma PutOn(was: seq<Byte>, mid: seq<Byte>, now: seq<Byte>, offset: nat, a: seq<Byte>, b: seq<Byte>)
    requires PutAt(was, mid, offset, a) && PutAt(mid, now, offset + |a|, b)
    ensures PutAt(was, now, offset, a + b)
  {
    Appended(mid, now, offset, offset + |a|, b);
    assert mid[offset + |a|..][|b|..] == mid[offset + |a| + |b|..];
    assert was[offset + |a|..][|b|..] == was[offset + |a| + |b|..];
  }

  predicate AllWide(items: seq<seq<Byte>>, width: nat) { forall e :: e in items ==> |e| == width }

  method SetItem(data: Uint8Array, start: nat, item: seq<Byte>, width: nat) returns (offset: nat)
    requires data.Valid() && |item| == width && start + |item| <= data.bytes.Length
    modifies data, data.bytes
    ensures data.Valid() && offset == start + |item|
    ensures PutAt(old(data.bytes[..]), data.bytes[..], start, item)
    ensures data.writes == Written(old(data.writes), start, offset)
  {
    PutBytes(data, start, item);
    offset := start + width;
  }

  /** One item of a vector after another, `width` bytes apart. */
  method SetItems(data: Uint8Array, start: nat, items: seq<seq<Byte>>, width: nat) returns (offset: nat)
    requires data.Valid() && AllWide(items, width)
    requires start + |Joined(items)| <= data.bytes.Length
    modifies data, data.bytes
    ensures data.Valid() && offset == start + |Joined(items)|
    ensures PutAt(old(data.bytes[..]), data.bytes[..], start, Joined(items))
    ensures data.writes == Written(old(data.writes), start, offset)
  {
    offset := start;
    WrittenOn(data.writes, start, start, start);
    PutNothing(data.bytes[..], start);
    JoinedEnds(items);
    hide PutAt, Written, AllWide, JoinedUpTo, Joined;
    for k := 0 to |items|
      invariant data.Valid() && offset == start + |JoinedUpTo(items, k)|
      invariant PutAt(old(data.bytes[..]), data.bytes[..], start, JoinedUpTo(items, k))
      invariant data.writes == Written(old(data.writes), start, offset)
    {
      ItemBound(items, k, width);
      ghost var mid, before := data.bytes[..], offset;
      offset := SetItem(data, offset, items[k], width);
      ItemPut(old(data.bytes[..]), mid, data.bytes[..], start, items, k, width);
      WrittenOn(old(data.writes), start, before, offset);
    }
  }

  /** The first `k` items in a row. */
  ghost function JoinedUpTo(items: seq<seq<Byte>>, k: nat): seq<Byte>
    requires k <= |items|
  {
    Joined(items[..k])
  }

  lemma JoinedEnds(items: seq<seq<Byte>>)
    ensures JoinedUpTo(items, 0) == [] && JoinedUpTo(items, |items|) == Joined(items)
  {
    assert items[..|items|] == items;
  }

  lemma ItemFits(items: seq<seq<Byte>>, k: nat, width: nat)
    requires k < |items| && AllWide(items, width)
    ensures |items[k]| == width && |JoinedUpTo(items, k)| + |items[k]| <= |Joined(items)|
    ensures JoinedUpTo(items, k + 1) == JoinedUpTo(items, k) + items[k]
  {
    assert items[k] in items;
    JoinedNext(items, k);
    JoinedGrows(items, k + 1);
  }

  lemma ItemPut(was: seq<Byte>, mid: seq<Byte>, now: seq<Byte>, start: nat, items: seq<seq<Byte>>, k: nat, width: nat)
    requires k < |items| && AllWide(items, width)
    requires PutAt(was, mid, start, JoinedUpTo(items, k)) && PutAt(mid, now, start + |JoinedUpTo(items, k)|, items[k])
    ensures PutAt(was, now, start, JoinedUpTo(items, k + 1))
    ensures |JoinedUpTo(items, k + 1)| == |JoinedUpTo(items, k)| + width
  {
    hide PutAt;
    ItemFits(items, k, width);
    PutOn(was, mid, now, start, JoinedUpTo(items, k), items[k]);
  }

  lemma ItemBound(items: seq<seq<Byte>>, k: nat, width: nat)
    requires k < |items| && AllWide(items, width)
    ensures |items[k]| == width && |JoinedUpTo(items, k)| + width <= |Joined(items)|
  {
    ItemFits(items, k, width);
  }

  lemma PutNothing(was: seq<Byte>, offset: nat)
    requires offset <= |was|
    ensures PutAt(was, was, offset, [])
  {}

  method PutBytes(data: Uint8Array, offset: nat, more: seq<Byte>)
    requires data.Valid() && offset + |more| <= data.bytes.Length
    modifies data, data.bytes
    ensures data.Valid() && PutAt(old(data.bytes[..]), data.bytes[..], offset, more)
    ensures data.writes == Written(old(data.writes), offset, offset + |more|)
  {
    ghost var was := data.bytes[..];
    assert was[..offset] == data.bytes[..offset] && was[offset + |more|..] == data.bytes[offset + |more|..];
    data.Set(offset, more);
    ghost var now := data.bytes[..];
    assert now[..offset] == data.bytes[..offset] && now[offset + |more|..] == data.bytes[offset + |more|..];
    assert now[offset..offset + |more|] == data.bytes[offset..offset + |more|];
  }

  lemma {:induction false} JoinedGrows(items: seq<seq<Byte>>, k: nat)
    requires k <= |items|
    ensures |Joined(items[..k])| <= |Joined(items)|
  {
    if k < |items| {
      assert items[..|items| - 1][..k] == items[..k];
      JoinedGrows(items[..|items| - 1], k);
    } else {
      assert items[..k] == items;
    }
  }

  method SetCounted(data: Uint8Array, start: nat, text: seq<Byte>) returns (offset: nat)
    requires data.Valid() && start + 2 + |text| <= data.bytes.Length
    modifies data, data.bytes
    ensures data.Valid() && offset == start + 2 + |text|
    ensures PutAt(old(data.bytes[..]), data.bytes[..], start, Prefix(|text|) + text)
    ensures data.writes == Written(old(data.writes), start, offset)
  {
    hide Prefix, PutAt, Written;
    PutBytes(data, start, Prefix(|text|));
    ghost var mid := data.bytes[..];
    PutBytes(data, start + 2, text);
    offset := start + 2 + |text|;
    PutOn(old(data.bytes[..]), mid, data.bytes[..], start, Prefix(|text|), text);
    WrittenOn(old(data.writes), start, start + 2, offset);
  }

  method SetVec(data: Uint8Array, start: nat, items: seq<seq<Byte>>, width: nat) returns (offset: nat)
    requires data.Valid() && AllWide(items, width)
    requires start + 2 + |Joined(items)| <= data.bytes.Length
    modifies data, data.bytes
    ensures data.Valid() && offset == start + 2 + |Joined(items)|
    ensures PutAt(old(data.bytes[..]), data.bytes[..], start, Prefix(|items|) + Joined(items))
    ensures data.writes == Written(old(data.writes), start, offset)
  {
    hide Joined, Prefix, PutAt, Written;
    PutBytes(data, start, Prefix(|items|));
    ghost var mid := data.bytes[..];
    offset := SetItems(data, start + 2, items, width);
    PutOn(old(data.bytes[..]), mid, data.bytes[..], start, Prefix(|items|), Joined(items));
    WrittenOn(old(data.writes), start, start + 2, offset);
  }

  /** Writes one argument at `start` and returns the offset after it. */
  method SetValue(data: Uint8Array, start: nat, s: Shape, v: Value) returns (offset: nat)
    requires data.Valid() && Fits(TypeScript, s, v) && start + |ValueBytes(v)| <= data.bytes.Length
    modifies data, data.bytes
    ensures data.Valid() && offset == start + |ValueBytes(v)|
    ensures PutAt(old(data.bytes[..]), data.bytes[..], start, ValueBytes(v))
    ensures data.writes == Written(old(data.writes), start, offset)
  {
    match v {
      case Raw(bytes) =>
        PutBytes(data, start, bytes);
        offset := start + s.width;
      case Number(n, width) =>
        PutBytes(data, start, NumberBytes(n, width));
        offset := start + s.width;
      case Items(items) => offset := SetVec(data, start, items, s.width);
      case Text(text) => offset := SetCounted(data, start, text);
    }
  }

  lemma PieceFits(values: seq<Value>, k: nat)
    requires k < |values|
    ensures Body(values[..k + 1]) == Body(values[..k]) + ValueBytes(values[k])
    ensures |Body(values[..k])| + |ValueBytes(values[k])| <= |Body(values)|
  {
    FlatMapNext(values, ValueEncoder(), k);
    BodyGrows(values, k + 1);
  }

  method FillValues(data: Uint8Array, schema: seq<Shape>, values: seq<Value>) returns (offset: nat)
    requires data.Valid() && |schema| == |values| && AllFit(TypeScript, schema, values)
    requires data.bytes.Length == 1 + |Body(values)|
    modifies data, data.bytes
    ensures data.Valid() && offset == data.bytes.Length
    ensures PutAt(old(data.bytes[..]), data.bytes[..], 1, Body(values))
    ensures data.writes == Written(old(data.writes), 1, offset)
  {
    offset := 1;
    WrittenOn(data.writes, 1, 1, 1);
    for k := 0 to |values|
      invariant data.Valid() && offset == 1 + |Body(values[..k])| <= data.bytes.Length
      invariant PutAt(old(data.bytes[..]), data.bytes[..], 1, Body(values[..k]))
      invariant data.writes == Written(old(data.writes), 1, offset)
    {
      hide PutAt, Written, Body, ValueBytes;
      PieceFits(values, k);
      ghost var mid, before := data.bytes[..], offset;
      assert Fits(TypeScript, schema[k], values[k]);
      offset := SetValue(data, offset, schema[k], values[k]);
      PutOn(old(data.bytes[..]), mid, data.bytes[..], 1, Body(values[..k]), ValueBytes(values[k]));
      WrittenOn(old(data.writes), 1, before, offset);
    }
    assert values[..|values|] == values;
  }

  /** Every string is encoded and every argument checked before the buffer exists. */
  method CodeAll(schema: seq<Shape>, given: seq<Given>) returns (r: Option<seq<Value>>)
    requires |schema| == |given|
    ensures r.Some? <==> AllAccepted(TypeScript, schema, given)
    ensures r.Some? ==> r.value == AllCoded(TypeScript, given) && AllFit(TypeScript, schema, r.value)
  {
    var values := [];
    for k := 0 to |given|
      invariant |values| == k
      invariant forall i :: 0 <= i < k ==>
        Coded(TypeScript, given[i]) == Some(values[i]) && Fits(TypeScript, schema[i], values[i])
    {
      var v := Coded(TypeScript, given[k]);
      if v.None? || !Fits(TypeScript, schema[k], v.value) { return None; }
      values := values + [v.value];
    }
    r := Some(values);
  }

  /** The TypeScript builder: a buffer of exactly the right size, in which every
      byte is written exactly once. */
  method FillBuffer(tag: Byte, schema: seq<Shape>, given: seq<Given>) returns (r: Option<Uint8Array>)
    requires |schema| == |given|
    ensures r.Some? ==> fresh(r.value) && r.value.Valid() && fresh(r.value.bytes)
    ensures Sent(TypeScript, tag, schema, given) == if r.Some? then Some(r.value.bytes[..]) else None
    ensures r.Some? ==> forall k :: 0 <= k < r.value.bytes.Length ==> r.value.writes[k] == 1
  {
    var coded := CodeAll(schema, given);
    if coded.None? { return None; }
    var values := coded.value;
    TotalSizeIsBody(values);
    var data := new Uint8Array(1 + TotalSize(values));
    data.Set(0, [tag]);
    assert data.bytes[..][..1] == [tag];
    ghost var tagged := data.bytes[..];
    var offset := FillValues(data, schema, values);
    assert data.bytes[..] == tagged[..1] + Body(values);
    r := Some(data);
  }

  /** The Python builder: encodes, checks and appends in turn, then joins. */
  method JoinParts(tag: Byte, schema: seq<Shape>, given: seq<Given>) returns (r: Option<seq<Byte>>)
    requires |schema| == |given|
    ensures r == Sent(Python, tag, schema, given)
  {
    hide Joined, Body, ValueBytes, Coded, Fits;
    var parts := [[tag]];
    ghost var values := [];
    NoParts(tag);
    for k := 0 to |given|
      invariant |values| == k
      invariant forall i :: 0 <= i < k ==>
        Accepts(Python, schema[i], given[i]) && Coded(Python, given[i]) == Some(values[i])
      invariant Joined(parts) == [tag] + Body(values)
    {
      var v := Coded(Python, given[k]);
      if v.None? || !Fits(Python, schema[k], v.value) { return None; }
      var more := PartsOf(v.value);
      MoreParts(parts, more, [tag], values, v.value);
      parts := parts + more;
      values := values + [v.value];
    }
    assert values == AllCoded(Python, given);
    r := Some(Joined(parts));
  }

  lemma NoParts(tag: Byte)
    ensures Joined([[tag]]) == [tag] + Body([])
  {
    JoinedOne([tag]);
  }

  lemma MoreParts(parts: seq<seq<Byte>>, more: seq<seq<Byte>>, head: seq<Byte>, values: seq<Value>, v: Value)
    requires Joined(parts) == head + Body(values) && Joined(more) == ValueBytes(v)
    ensures Joined(parts + more) == head + Body(values + [v])
  {
    hide Joined, ValueBytes;
    JoinedConcat(parts, more);
    FlatMapLast(values, v, ValueEncoder());
    Assoc(head, Body(values), ValueBytes(v));
  }

  method PartsOf(v: Value) returns (parts: seq<seq<Byte>>)
    ensures Joined(parts) == ValueBytes(v)
  {
    match v {
      case Raw(bytes) =>
        parts := [bytes];
        JoinedOne(bytes);
      case Number(n, width) =>
        parts := [NumberBytes(n, width)];
        JoinedOne(NumberBytes(n, width));
      case Items(items) =>
        parts := [Prefix(|items|)] + items;
        JoinedOne(Prefix(|items|));
        JoinedConcat([Prefix(|items|)], items);
      case Text(text) =>
        parts := [Prefix(|text|)] + [text];
        JoinedOne(Prefix(|text|));
        JoinedOne(text);
        JoinedConcat([Prefix(|text|)], [text]);
    }
  }

  lemma JoinedOne(part: seq<Byte>)
    ensures Joined([part]) == part
  {
    assert [part][..0] == [];
  }

  lemma {:induction false} JoinedConcat(a: seq<seq<Byte>>, b: seq<seq<Byte>>)
    ensures Joined(a + b) == Joined(a) + Joined(b)
  {
    if b == [] {
      assert a + b == a;
    } else {
      assert (a + b)[..|a + b| - 1] == a + b[..|b| - 1];
      JoinedConcat(a, b[..|b| - 1]);
    }
  }
}
