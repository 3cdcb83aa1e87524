/** The canonical encoding of a program's mutation contract, appended in nested
    loops, and the decoder that shows it loses nothing. */
module Commitment {
  import opened Orders
  import opened Octets
  import opened Manifest
  import Sha256

  datatype ArgEncoding = Fixed | BoundedVec | BoundedString

  /** Text is its UTF-8 bytes. */
  type Text = seq<Byte>

  datatype Arg = Arg(name: Text, canonicalType: Text, size: U16, encoding: ArgEncoding,
                     maxLen: Option<U16>, elementSize: Option<U16>)

  datatype Cells = Cells(accountIndex: U8, baseOffset: U32, stride: U32, cellSize: U32, count: U32,
                         argumentIndex: U8, argument: Text, segment: Text)

  /** The mutation contract of one instruction. */
  datatype Contract = Contract(
    name: Text, tag: U8, strictWrites: bool, mutationComplete: bool,
    args: seq<Arg>, authorized: seq<Range>, parametric: seq<Cells>, lamportAccounts: seq<U8>)

  datatype Role = Role(name: Text, writable: bool, signer: bool)

  /** An instruction as a manifest lists it: its contract and its account roles. */
  datatype Listed = Listed(contract: Contract, accounts: seq<Role>)

  datatype ProgramManifest = ProgramManifest(programName: Text, programVersion: Text, instructions: seq<Listed>)

  // -------------------------------------------------------------------------
  // The encoding.
  // -------------------------------------------------------------------------

  /** A length cast to 32 bits, as it is written. */
  function Length(n: nat): seq<Byte> { Le32(n % 0x1_0000_0000) }

  function TextBytes(t: Text): seq<Byte> { Length(|t|) + t }

  function OptionalBytes(o: Option<U16>): seq<Byte> {
    match o case None => [0] case Some(v) => [1] + Le16(v)
  }

  function EncodingTag(e: ArgEncoding): Byte {
    match e case Fixed => 0 case BoundedVec => 1 case BoundedString => 2
  }

  function Flag(b: bool): Byte { if b then 1 else 0 }

  function ArgBytes(): Arg -> seq<Byte> {
    (a: Arg) => TextBytes(a.name) + TextBytes(a.canonicalType) + Le16(a.size) + [EncodingTag(a.encoding)]
                + OptionalBytes(a.maxLen) + OptionalBytes(a.elementSize)
  }

  function RangeBytes(): Range -> seq<Byte> {
    (r: Range) => [r.accountIndex] + Le32(r.offset) + Le32(r.size)
  }

  function CellsBytes(): Cells -> seq<Byte> {
    (c: Cells) => [c.accountIndex] + Le32(c.baseOffset) + Le32(c.stride) + Le32(c.cellSize) + Le32(c.count)
                  + [c.argumentIndex] + TextBytes(c.argument) + TextBytes(c.segment)
  }

  function IndexBytes(): U8 -> seq<Byte> { (i: U8) => [i] }

  /** A list: its length, then every element. */
  function ListBytes<T>(xs: seq<T>, enc: T -> seq<Byte>): seq<Byte> {
    Length(|xs|) + FlatMap(xs, enc)
  }

  function ContractBytes(c: Contract): seq<Byte> {
    TextBytes(c.name) + [c.tag] + [Flag(c.strictWrites)] + [Flag(c.mutationComplete)]
    + ListBytes(c.args, ArgBytes()) + ListBytes(c.authorized, RangeBytes())
    + ListBytes(c.parametric, CellsBytes()) + ListBytes(c.lamportAccounts, IndexBytes())
  }

  function ListedBytes(): Listed -> seq<Byte> { (l: Listed) => ContractBytes(l.contract) }

  /** "grillo.mutation-contract.v2" */
  const DOMAIN: seq<Byte> := [
    0x67, 0x72, 0x69, 0x6c, 0x6c, 0x6f, 0x2e, 0x6d, 0x75, 0x74, 0x61, 0x74, 0x69, 0x6f,
    0x6e, 0x2d, 0x63, 0x6f, 0x6e, 0x74, 0x72, 0x61, 0x63, 0x74, 0x2e, 0x76, 0x32]

  /** ".instruction" */
  const INSTRUCTION: seq<Byte> := [0x2e, 0x69, 0x6e, 0x73, 0x74, 0x72, 0x75, 0x63, 0x74, 0x69, 0x6f, 0x6e]

  /** The two tags, spelled out. */
  lemma TagsSpelled(k: nat)
    ensures |DOMAIN| == |"grillo.mutation-contract.v2"| && |INSTRUCTION| == |".instruction"|
    ensures k < |DOMAIN| ==> DOMAIN[k] == "grillo.mutation-contract.v2"[k] as int
    ensures k < |INSTRUCTION| ==> INSTRUCTION[k] == ".instruction"[k] as int
  {
    if k < 9 { match k { case 0 => case 1 => case 2 => case 3 => case 4 => case 5 => case 6 => case 7 => case 8 => } }
    else if k < 18 {
      match k { case 9 => case 10 => case 11 => case 12 => case 13 => case 14 => case 15 => case 16 => case 17 => }
    } else if k < 27 {
      match k { case 18 => case 19 => case 20 => case 21 => case 22 => case 23 => case 24 => case 25 => case 26 => }
    }
  }

  function CanonicalBytes(m: ProgramManifest): seq<Byte> {
    DOMAIN + ListBytes(m.instructions, ListedBytes())
  }

  function InstructionPreimage(c: Contract): seq<Byte> {
    DOMAIN + INSTRUCTION + ContractBytes(c)
  }

  // -------------------------------------------------------------------------
  // The code: appends in nested loops.
  // -------------------------------------------------------------------------

  method EncodeText(out: ByteVec, t: Text)
    modifies out
    ensures out.bytes == old(out.bytes) + TextBytes(t)
  {
    out.Extend(Length(|t|));
    out.Extend(t);
  }

  method EncodeOptional(out: ByteVec, o: Option<U16>)
    modifies out
    ensures out.bytes == old(out.bytes) + OptionalBytes(o)
  {
    match o {
      case Some(v) =>
        out.Push(1);
        out.Extend(Le16(v));
      case None => out.Push(0);
    }
  }

  method EncodeArg(out: ByteVec, a: Arg)
    modifies out
    ensures out.bytes == old(out.bytes) + ArgBytes()(a)
  {
    ghost var start := out.bytes;
    EncodeText(out, a.name);
    EncodeText(out, a.canonicalType);
    out.Extend(Le16(a.size));
    out.Push(EncodingTag(a.encoding));
    EncodeOptional(out, a.maxLen);
    EncodeOptional(out, a.elementSize);
    assert out.bytes == start + (TextBytes(a.name) + TextBytes(a.canonicalType) + Le16(a.size)
                                 + [EncodingTag(a.encoding)] + OptionalBytes(a.maxLen) + OptionalBytes(a.elementSize));
  }

  method EncodeArgs(out: ByteVec, args: seq<Arg>)
    modifies out
    ensures out.bytes == old(out.bytes) + ListBytes(args, ArgBytes())
  {
    out.Extend(Length(|args|));
    ghost var start := out.bytes;
    for k := 0 to |args|
      invariant out.bytes == start + FlatMap(args[..k], ArgBytes())
    {
      FlatMapNext(args, ArgBytes(), k);
      Assoc(start, FlatMap(args[..k], ArgBytes()), ArgBytes()(args[k]));
      EncodeArg(out, args[k]);
    }
    assert args[..|args|] == args;
    Assoc(old(out.bytes), Length(|args|), FlatMap(args, ArgBytes()));
  }

  method EncodeRanges(out: ByteVec, ranges: seq<Range>)
    modifies out
    ensures out.bytes == old(out.bytes) + ListBytes(ranges, RangeBytes())
  {
    out.Extend(Length(|ranges|));
    ghost var start := out.bytes;
    for k := 0 to |ranges|
      invariant out.bytes == start + FlatMap(ranges[..k], RangeBytes())
    {
      ghost var before := out.bytes;
      FlatMapNext(ranges, RangeBytes(), k);
      Assoc(start, FlatMap(ranges[..k], RangeBytes()), RangeBytes()(ranges[k]));
      out.Push(ranges[k].accountIndex);
      out.Extend(Le32(ranges[k].offset));
      out.Extend(Le32(ranges[k].size));
      assert out.bytes == before + RangeBytes()(ranges[k]);
    }
    assert ranges[..|ranges|] == ranges;
    Assoc(old(out.bytes), Length(|ranges|), FlatMap(ranges, RangeBytes()));
  }

  method EncodeCells(out: ByteVec, c: Cells)
    modifies out
    ensures out.bytes == old(out.bytes) + CellsBytes()(c)
  {
    ghost var start := out.bytes;
    out.Push(c.accountIndex);
    out.Extend(Le32(c.baseOffset));
    out.Extend(Le32(c.stride));
    out.Extend(Le32(c.cellSize));
    out.Extend(Le32(c.count));
    out.Push(c.argumentIndex);
    EncodeText(out, c.argument);
    EncodeText(out, c.segment);
    assert out.bytes == start + ([c.accountIndex] + Le32(c.baseOffset) + Le32(c.stride) + Le32(c.cellSize)
                                 + Le32(c.count) + [c.argumentIndex] + TextBytes(c.argument) + TextBytes(c.segment));
  }

  method EncodeRules(out: ByteVec, rules: seq<Cells>)
    modifies out
    ensures out.bytes == old(out.bytes) + ListBytes(rules, CellsBytes())
  {
    out.Extend(Length(|rules|));
    ghost var start := out.bytes;
    for k := 0 to |rules|
      invariant out.bytes == start + FlatMap(rules[..k], CellsBytes())
    {
      FlatMapNext(rules, CellsBytes(), k);
      Assoc(start, FlatMap(rules[..k], CellsBytes()), CellsBytes()(rules[k]));
      EncodeCells(out, rules[k]);
    }
    assert rules[..|rules|] == rules;
    Assoc(old(out.bytes), Length(|rules|), FlatMap(rules, CellsBytes()));
  }

  method EncodeIndexes(out: ByteVec, indexes: seq<U8>)
    modifies out
    ensures out.bytes == old(out.bytes) + ListBytes(indexes, IndexBytes())
  {
    out.Extend(Length(|indexes|));
    ghost var start := out.bytes;
    for k := 0 to |indexes|
      invariant out.bytes == start + FlatMap(indexes[..k], IndexBytes())
    {
      FlatMapNext(indexes, IndexBytes(), k);
      Assoc(start, FlatMap(indexes[..k], IndexBytes()), IndexBytes()(indexes[k]));
      out.Push(indexes[k]);
    }
    assert indexes[..|indexes|] == indexes;
    Assoc(old(out.bytes), Length(|indexes|), FlatMap(indexes, IndexBytes()));
  }

  method EncodeCanonical(out: ByteVec, c: Contract)
    modifies out
    ensures out.bytes == old(out.bytes) + ContractBytes(c)
  {
    ghost var start := out.bytes;
    EncodeText(out, c.name);
    out.Push(c.tag);
    out.Push(Flag(c.strictWrites));
    out.Push(Flag(c.mutationComplete));
    ghost var done := TextBytes(c.name) + [c.tag] + [Flag(c.strictWrites)] + [Flag(c.mutationComplete)];
    assert out.bytes == start + done;
    EncodeArgs(out, c.args);
    Assoc(start, done, ListBytes(c.args, ArgBytes()));
    done := done + ListBytes(c.args, ArgBytes());
    EncodeRanges(out, c.authorized);
    Assoc(start, done, ListBytes(c.authorized, RangeBytes()));
    done := done + ListBytes(c.authorized, RangeBytes());
    EncodeRules(out, c.parametric);
    Assoc(start, done, ListBytes(c.parametric, CellsBytes()));
    done := done + ListBytes(c.parametric, CellsBytes());
    EncodeIndexes(out, c.lamportAccounts);
    Assoc(start, done, ListBytes(c.lamportAccounts, IndexBytes()));
  }

  method EncodeInstructions(out: ByteVec, listed: seq<Listed>)
    modifies out
    ensures out.bytes == old(out.bytes) + ListBytes(listed, ListedBytes())
  {
    out.Extend(Length(|listed|));
    ghost var start := out.bytes;
    for k := 0 to |listed|
      invariant out.bytes == start + FlatMap(listed[..k], ListedBytes())
    {
      FlatMapNext(listed, ListedBytes(), k);
      Assoc(start, FlatMap(listed[..k], ListedBytes()), ListedBytes()(listed[k]));
      EncodeCanonical(out, listed[k].contract);
    }
    assert listed[..|listed|] == listed;
    Assoc(old(out.bytes), Length(|listed|), FlatMap(listed, ListedBytes()));
  }

  /** A vector that starts with a domain tag. */
  method Tagged(domain: seq<Byte>) returns (out: ByteVec)
    ensures fresh(out) && out.bytes == domain
  {
    out := new ByteVec();
    out.Extend(domain);
  }

  method EncodeManifest(m: ProgramManifest) returns (bytes: seq<Byte>)
    ensures bytes == CanonicalBytes(m)
  {
    var out := Tagged(DOMAIN);
    EncodeInstructions(out, m.instructions);
    bytes := out.bytes;
  }

  method CommitmentOf(m: ProgramManifest) returns (digest: seq<Byte>)
    ensures digest == Sha256.Sha(CanonicalBytes(m))
  {
    var bytes := EncodeManifest(m);
    digest := Sha256.Sha256Of(bytes);
  }

  method EncodePreimage(c: Contract) returns (bytes: seq<Byte>)
    ensures bytes == InstructionPreimage(c)
  {
    var out := Tagged(DOMAIN + INSTRUCTION);
    EncodeCanonical(out, c);
    bytes := out.bytes;
  }

  method InstructionCommitment(c: Contract) returns (digest: seq<Byte>)
    ensures digest == Sha256.Sha(InstructionPreimage(c))
  {
    var bytes := EncodePreimage(c);
    digest := Sha256.Sha256Of(bytes);
  }

  // -------------------------------------------------------------------------
  // A decoder that inverts the encoding in front of any suffix.
  // -------------------------------------------------------------------------

  type Parsed<T> = Option<(T, seq<Byte>)>

  /** `dec` reads back what was written and leaves the rest alone. */
  ghost predicate Reads<T(!new)>(dec: seq<Byte> -> Parsed<T>, bytes: seq<Byte>, x: T) {
    forall rest :: dec(bytes + rest) == Some((x, rest))
  }

  type Decoder<T> = seq<Byte> -> Parsed<T>

  function TakeByte(): Decoder<Byte> {
    (s: seq<Byte>) => if s == [] then None else Some((s[0], s[1..]))
  }

  function TakeU16(): Decoder<U16> {
    (s: seq<Byte>) => if |s| < 2 then None else Some((FromLe16(s[0], s[1]), s[2..]))
  }

  function TakeU32(): Decoder<U32> {
    (s: seq<Byte>) => if |s| < 4 then None else Some((FromLe32(s[0], s[1], s[2], s[3]), s[4..]))
  }

  function TakeText(): Decoder<Text> {
    (s: seq<Byte>) =>
      var (n, s) :- TakeU32()(s);
      if |s| < n then None else Some((s[..n], s[n..]))
  }

  function TakeOptional(): Decoder<Option<U16>> {
    (s: seq<Byte>) =>
      var (tag, s) :- TakeByte()(s);
      if tag == 0 then Some((None, s))
      else var (v, s) :- TakeU16()(s); Some((Some(v), s))
  }

  function TakeMany<T>(n: nat, dec: Decoder<T>, s: seq<Byte>): Parsed<seq<T>> {
    if n == 0 then Some(([], s))
    else
      var (xs, s) :- TakeMany(n - 1, dec, s);
      var (x, s) :- dec(s);
      Some((xs + [x], s))
  }

  /** A count, then that many elements. */
  function TakeList<T>(dec: Decoder<T>): Decoder<seq<T>> {
    (s: seq<Byte>) =>
      var (n, s) :- TakeU32()(s);
      TakeMany(n, dec, s)
  }

  /** One decoder after another. */
  function Then<A, B>(first: Decoder<A>, second: Decoder<B>): Decoder<(A, B)> {
    (s: seq<Byte>) =>
      var (a, s) :- first(s);
      var (b, s) :- second(s);
      Some(((a, b), s))
  }

  /** A decoder whose result is rebuilt. */
  function Rebuild<A, B>(dec: Decoder<A>, build: A -> B): Decoder<B> {
    (s: seq<Byte>) =>
      var (a, s) :- dec(s);
      Some((build(a), s))
  }

  function EncodingOf(tag: Byte): ArgEncoding {
    if tag == 0 then Fixed else if tag == 1 then BoundedVec else BoundedString
  }

  type ArgParts = (Text, (Text, (U16, (Byte, (Option<U16>, Option<U16>)))))

  function BuildArg(): ArgParts -> Arg {
    (p: ArgParts) => Arg(p.0, p.1.0, p.1.1.0, EncodingOf(p.1.1.1.0), p.1.1.1.1.0, p.1.1.1.1.1)
  }

  function TakeArg(): Decoder<Arg> {
    Rebuild(Then(TakeText(), Then(TakeText(), TakeArgTail())), BuildArg())
  }

  function TakeArgTail(): Decoder<(U16, (Byte, (Option<U16>, Option<U16>)))> {
    Then(TakeU16(), Then(TakeByte(), Then(TakeOptional(), TakeOptional())))
  }

  type RangeParts = (Byte, (U32, U32))

  function BuildRange(): RangeParts -> Range { (p: RangeParts) => Range(p.0, p.1.0, p.1.1) }

  function TakeRange(): Decoder<Range> {
    Rebuild(Then(TakeByte(), Then(TakeU32(), TakeU32())), BuildRange())
  }

  type CellParts = (Byte, (U32, (U32, (U32, (U32, (Byte, (Text, Text)))))))

  function BuildCells(): CellParts -> Cells {
    (p: CellParts) =>
      Cells(p.0, p.1.0, p.1.1.0, p.1.1.1.0, p.1.1.1.1.0, p.1.1.1.1.1.0, p.1.1.1.1.1.1.0, p.1.1.1.1.1.1.1)
  }

  function TakeCells(): Decoder<Cells> {
    Rebuild(Then(TakeByte(), Then(TakeU32(), Then(TakeU32(), Then(TakeU32(), Then(TakeU32(),
            Then(TakeByte(), Then(TakeText(), TakeText()))))))), BuildCells())
  }

  type ContractParts = (Text, (Byte, (Byte, (Byte, (seq<Arg>, (seq<Range>, (seq<Cells>, seq<U8>)))))))

  function BuildContract(): ContractParts -> Contract {
    (p: ContractParts) => Contract(p.0, p.1.0, p.1.1.0 == 1, p.1.1.1.0 == 1,
      p.1.1.1.1.0, p.1.1.1.1.1.0, p.1.1.1.1.1.1.0, p.1.1.1.1.1.1.1)
  }

  function TakeContract(): Decoder<Contract> {
    Rebuild(Then(TakeText(), Then(TakeByte(), Then(TakeByte(), Then(TakeByte(),
            Then(TakeList(TakeArg()),
            Then(TakeList(TakeRange()),
            Then(TakeList(TakeCells()), TakeList(TakeByte())))))))),
            BuildContract())
  }

  // -------------------------------------------------------------------------
  // Each decoder reads back its encoding.
  // -------------------------------------------------------------------------

  lemma ByteReads(b: Byte)
    ensures Reads(TakeByte(), [b], b)
  {
    forall rest ensures TakeByte()([b] + rest) == Some((b, rest)) { assert ([b] + rest)[1..] == rest; }
  }

  lemma U16Reads(v: U16)
    ensures Reads(TakeU16(), Le16(v), v)
  {
    Le16RoundTrip(v);
    forall rest ensures TakeU16()(Le16(v) + rest) == Some((v, rest)) { assert (Le16(v) + rest)[2..] == rest; }
  }

  lemma U32Reads(v: U32)
    ensures Reads(TakeU32(), Le32(v), v)
  {
    Le32RoundTrip(v);
    forall rest ensures TakeU32()(Le32(v) + rest) == Some((v, rest)) { assert (Le32(v) + rest)[4..] == rest; }
  }

  ghost predicate Fits(n: nat) { n < 0x1_0000_0000 }

  lemma LengthFits(n: nat)
    requires Fits(n)
    ensures Length(n) == Le32(n)
  {}

  lemma LengthReads(n: U32)
    ensures Reads(TakeU32(), Length(n), n)
  {
    LengthFits(n);
    U32Reads(n);
  }

  lemma TextReads(t: Text)
    requires Fits(|t|)
    ensures Reads(TakeText(), TextBytes(t), t)
  {
    LengthReads(|t|);
    var length := Length(|t|);
    forall rest ensures TakeText()(length + t + rest) == Some((t, rest)) {
      Assoc(length, t, rest);
      assert TakeU32()(length + (t + rest)) == Some((|t|, t + rest));
      assert (t + rest)[..|t|] == t && (t + rest)[|t|..] == rest;
    }
  }

  lemma OptionalReads(o: Option<U16>)
    ensures Reads(TakeOptional(), OptionalBytes(o), o)
  {
    match o {
      case None => ByteReads(0);
      case Some(v) =>
        ByteReads(1);
        U16Reads(v);
        forall rest ensures TakeOptional()([1] + Le16(v) + rest) == Some((o, rest)) {
          Assoc([1], Le16(v), rest);
          assert TakeByte()([1] + (Le16(v) + rest)) == Some((1, Le16(v) + rest));
        }
    }
  }

  lemma {:induction false} ManyReads<T(!new)>(xs: seq<T>, enc: T -> seq<Byte>, dec: Decoder<T>, rest: seq<Byte>)
    requires forall x :: x in xs ==> Reads(dec, enc(x), x)
    ensures TakeMany(|xs|, dec, FlatMap(xs, enc) + rest) == Some((xs, rest))
  {
    if xs == [] {
      assert FlatMap(xs, enc) + rest == rest;
    } else {
      var init, last := xs[..|xs| - 1], xs[|xs| - 1];
      Assoc(FlatMap(init, enc), enc(last), rest);
      ManyReads(init, enc, dec, enc(last) + rest);
      assert Reads(dec, enc(last), last);
      assert xs == init + [last];
    }
  }

  lemma ListReads<T(!new)>(xs: seq<T>, enc: T -> seq<Byte>, dec: Decoder<T>)
    requires Fits(|xs|) && forall x :: x in xs ==> Reads(dec, enc(x), x)
    ensures Reads(TakeList(dec), ListBytes(xs, enc), xs)
  {
    forall rest ensures TakeList(dec)(ListBytes(xs, enc) + rest) == Some((xs, rest)) {
      ListReadsBefore(|xs|, Length(|xs|), FlatMap(xs, enc), xs, enc, dec, rest);
    }
  }

  lemma ListReadsBefore<T(!new)>(n: U32, length: seq<Byte>, body: seq<Byte>, xs: seq<T>, enc: T -> seq<Byte>,
                                 dec: Decoder<T>, rest: seq<Byte>)
    requires n == |xs| && length == Length(n) && body == FlatMap(xs, enc)
    requires forall x :: x in xs ==> Reads(dec, enc(x), x)
    ensures TakeList(dec)(length + body + rest) == Some((xs, rest))
  {
    LengthReads(n);
    Assoc(length, body, rest);
    assert TakeU32()(length + (body + rest)) == Some((n, body + rest));
    ManyReads(xs, enc, dec, rest);
  }

  lemma ThenReads<A(!new), B(!new)>(first: Decoder<A>, a: seq<Byte>, x: A, second: Decoder<B>, b: seq<Byte>, y: B)
    requires Reads(first, a, x) && Reads(second, b, y)
    ensures Reads(Then(first, second), a + b, (x, y))
  {
    forall rest ensures Then(first, second)(a + b + rest) == Some(((x, y), rest)) {
      Assoc(a, b, rest);
      assert first(a + (b + rest)) == Some((x, b + rest));
    }
  }

  lemma RebuildReads<A(!new), B(!new)>(dec: Decoder<A>, bytes: seq<Byte>, x: A, build: A -> B)
    requires Reads(dec, bytes, x)
    ensures Reads(Rebuild(dec, build), bytes, build(x))
  {}

  function ArgTailBytes(a: Arg): seq<Byte> {
    Le16(a.size) + ([EncodingTag(a.encoding)] + (OptionalBytes(a.maxLen) + OptionalBytes(a.elementSize)))
  }

  lemma ArgTailReads(a: Arg)
    ensures Reads(TakeArgTail(), ArgTailBytes(a), (a.size, (EncodingTag(a.encoding), (a.maxLen, a.elementSize))))
  {
    OptionalReads(a.maxLen);
    OptionalReads(a.elementSize);
    var o := OptionalBytes(a.maxLen) + OptionalBytes(a.elementSize);
    ThenReads(TakeOptional(), OptionalBytes(a.maxLen), a.maxLen,
              TakeOptional(), OptionalBytes(a.elementSize), a.elementSize);
    var e := EncodingTag(a.encoding);
    ByteReads(e);
    ThenReads(TakeByte(), [e], e, Then(TakeOptional(), TakeOptional()), o, (a.maxLen, a.elementSize));
    U16Reads(a.size);
    ThenReads(TakeU16(), Le16(a.size), a.size, Then(TakeByte(), Then(TakeOptional(), TakeOptional())), [e] + o,
              (e, (a.maxLen, a.elementSize)));
  }

  lemma SixParts(a: seq<Byte>, b: seq<Byte>, c: seq<Byte>, d: seq<Byte>, e: seq<Byte>, f: seq<Byte>)
    ensures a + b + c + d + e + f == a + (b + (c + (d + (e + f))))
  {}

  lemma ArgReads(a: Arg)
    requires Fits(|a.name|) && Fits(|a.canonicalType|)
    ensures Reads(TakeArg(), ArgBytes()(a), a)
  {
    SixParts(TextBytes(a.name), TextBytes(a.canonicalType), Le16(a.size), [EncodingTag(a.encoding)],
             OptionalBytes(a.maxLen), OptionalBytes(a.elementSize));
    ArgTailReads(a);
    var parts := (a.size, (EncodingTag(a.encoding), (a.maxLen, a.elementSize)));
    TextReads(a.name);
    TextReads(a.canonicalType);
    ThenReads(TakeText(), TextBytes(a.canonicalType), a.canonicalType, TakeArgTail(), ArgTailBytes(a), parts);
    ThenReads(TakeText(), TextBytes(a.name), a.name, Then(TakeText(), TakeArgTail()),
              TextBytes(a.canonicalType) + ArgTailBytes(a), (a.canonicalType, parts));
    RebuildReads(Then(TakeText(), Then(TakeText(), TakeArgTail())), ArgBytes()(a),
                 (a.name, (a.canonicalType, parts)), BuildArg());
    BuildsArg(a);
  }

  lemma BuildsArg(a: Arg)
    ensures BuildArg()((a.name, (a.canonicalType, (a.size, (EncodingTag(a.encoding), (a.maxLen, a.elementSize)))))) == a
  {}

  lemma RangeReads(r: Range)
    ensures Reads(TakeRange(), RangeBytes()(r), r)
  {
    ByteReads(r.accountIndex);
    U32Reads(r.offset);
    U32Reads(r.size);
    ThenReads(TakeU32(), Le32(r.offset), r.offset, TakeU32(), Le32(r.size), r.size);
    ThenReads(TakeByte(), [r.accountIndex], r.accountIndex, Then(TakeU32(), TakeU32()),
              Le32(r.offset) + Le32(r.size), (r.offset, r.size));
    Assoc([r.accountIndex], Le32(r.offset), Le32(r.size));
    RebuildReads(Then(TakeByte(), Then(TakeU32(), TakeU32())), RangeBytes()(r),
                 (r.accountIndex, (r.offset, r.size)), BuildRange());
    assert BuildRange()((r.accountIndex, (r.offset, r.size))) == r;
  }

  function TakeCellTail(): Decoder<(Byte, (Text, Text))> { Then(TakeByte(), Then(TakeText(), TakeText())) }

  function CellTailBytes(c: Cells): seq<Byte> { [c.argumentIndex] + (TextBytes(c.argument) + TextBytes(c.segment)) }

  lemma CellTailReads(c: Cells)
    requires Fits(|c.argument|) && Fits(|c.segment|)
    ensures Reads(TakeCellTail(), CellTailBytes(c), (c.argumentIndex, (c.argument, c.segment)))
  {
    ByteReads(c.argumentIndex);
    TextReads(c.argument);
    TextReads(c.segment);
    ThenReads(TakeText(), TextBytes(c.argument), c.argument, TakeText(), TextBytes(c.segment), c.segment);
    ThenReads(TakeByte(), [c.argumentIndex], c.argumentIndex, Then(TakeText(), TakeText()),
              TextBytes(c.argument) + TextBytes(c.segment), (c.argument, c.segment));
  }

  /** Four numbers in front of something that reads. */
  lemma NumbersRead<T(!new)>(a: U32, b: U32, c: U32, d: U32, dec: Decoder<T>, bytes: seq<Byte>, x: T)
    requires Reads(dec, bytes, x)
    ensures Reads(Then(TakeU32(), Then(TakeU32(), Then(TakeU32(), Then(TakeU32(), dec)))),
                  Le32(a) + (Le32(b) + (Le32(c) + (Le32(d) + bytes))), (a, (b, (c, (d, x)))))
  {
    U32Reads(a);
    U32Reads(b);
    U32Reads(c);
    U32Reads(d);
    ThenReads(TakeU32(), Le32(d), d, dec, bytes, x);
    ThenReads(TakeU32(), Le32(c), c, Then(TakeU32(), dec), Le32(d) + bytes, (d, x));
    ThenReads(TakeU32(), Le32(b), b, Then(TakeU32(), Then(TakeU32(), dec)), Le32(c) + (Le32(d) + bytes), (c, (d, x)));
    ThenReads(TakeU32(), Le32(a), a, Then(TakeU32(), Then(TakeU32(), Then(TakeU32(), dec))),
              Le32(b) + (Le32(c) + (Le32(d) + bytes)), (b, (c, (d, x))));
  }

  lemma EightParts(a: seq<Byte>, b: seq<Byte>, c: seq<Byte>, d: seq<Byte>, e: seq<Byte>, f: seq<Byte>,
                   g: seq<Byte>, h: seq<Byte>)
    ensures a + b + c + d + e + f + g + h == a + (b + (c + (d + (e + (f + (g + h))))))
  {}

  lemma CellsRead(c: Cells)
    requires Fits(|c.argument|) && Fits(|c.segment|)
    ensures Reads(TakeCells(), CellsBytes()(c), c)
  {
    EightParts([c.accountIndex], Le32(c.baseOffset), Le32(c.stride), Le32(c.cellSize), Le32(c.count),
               [c.argumentIndex], TextBytes(c.argument), TextBytes(c.segment));
    CellTailReads(c);
    var tail := (c.argumentIndex, (c.argument, c.segment));
    NumbersRead(c.baseOffset, c.stride, c.cellSize, c.count, TakeCellTail(), CellTailBytes(c), tail);
    var numbers := Le32(c.baseOffset) + (Le32(c.stride) + (Le32(c.cellSize) + (Le32(c.count) + CellTailBytes(c))));
    var parts := (c.baseOffset, (c.stride, (c.cellSize, (c.count, tail))));
    var dec := Then(TakeU32(), Then(TakeU32(), Then(TakeU32(), Then(TakeU32(), TakeCellTail()))));
    ByteReads(c.accountIndex);
    ThenReads(TakeByte(), [c.accountIndex], c.accountIndex, dec, numbers, parts);
    RebuildReads(Then(TakeByte(), dec), CellsBytes()(c), (c.accountIndex, parts), BuildCells());
    assert BuildCells()((c.accountIndex, parts)) == c;
  }

  /** Every length of the contract fits its 32-bit field. */
  ghost predicate Sized(c: Contract) {
    && Fits(|c.name|) && Fits(|c.args|) && Fits(|c.authorized|) && Fits(|c.parametric|) && Fits(|c.lamportAccounts|)
    && (forall a :: a in c.args ==> Fits(|a.name|) && Fits(|a.canonicalType|))
    && (forall r :: r in c.parametric ==> Fits(|r.argument|) && Fits(|r.segment|))
  }

  lemma ArgsRead(c: Contract)
    requires Sized(c)
    ensures Reads(TakeList(TakeArg()), ListBytes(c.args, ArgBytes()), c.args)
  {
    forall a | a in c.args ensures Reads(TakeArg(), ArgBytes()(a), a) { ArgReads(a); }
    ListReads(c.args, ArgBytes(), TakeArg());
  }

  lemma RangesRead(c: Contract)
    requires Sized(c)
    ensures Reads(TakeList(TakeRange()), ListBytes(c.authorized, RangeBytes()), c.authorized)
  {
    forall r | r in c.authorized ensures Reads(TakeRange(), RangeBytes()(r), r) { RangeReads(r); }
    ListReads(c.authorized, RangeBytes(), TakeRange());
  }

  lemma RulesRead(c: Contract)
    requires Sized(c)
    ensures Reads(TakeList(TakeCells()), ListBytes(c.parametric, CellsBytes()), c.parametric)
  {
    forall r | r in c.parametric ensures Reads(TakeCells(), CellsBytes()(r), r) { CellsRead(r); }
    ListReads(c.parametric, CellsBytes(), TakeCells());
  }

  lemma IndexesRead(c: Contract)
    requires Sized(c)
    ensures Reads(TakeList(TakeByte()), ListBytes(c.lamportAccounts, IndexBytes()), c.lamportAccounts)
  {
    forall i | i in c.lamportAccounts ensures Reads(TakeByte(), IndexBytes()(i), i) { ByteReads(i); }
    ListReads(c.lamportAccounts, IndexBytes(), TakeByte());
  }

  type ListParts = (seq<Arg>, (seq<Range>, (seq<Cells>, seq<U8>)))

  function TakeLists(): Decoder<ListParts> {
    Then(TakeList(TakeArg()), Then(TakeList(TakeRange()), Then(TakeList(TakeCells()), TakeList(TakeByte()))))
  }

  function ListsBytes(c: Contract): seq<Byte> {
    ListBytes(c.args, ArgBytes()) + (ListBytes(c.authorized, RangeBytes())
    + (ListBytes(c.parametric, CellsBytes()) + ListBytes(c.lamportAccounts, IndexBytes())))
  }

  lemma ListsRead(c: Contract)
    requires Sized(c)
    ensures Reads(TakeLists(), ListsBytes(c), (c.args, (c.authorized, (c.parametric, c.lamportAccounts))))
  {
    ArgsRead(c);
    RangesRead(c);
    RulesRead(c);
    IndexesRead(c);
    var d1, b1 := TakeList(TakeByte()), ListBytes(c.lamportAccounts, IndexBytes());
    var d2, b2 := TakeList(TakeCells()), ListBytes(c.parametric, CellsBytes());
    var d3, b3 := TakeList(TakeRange()), ListBytes(c.authorized, RangeBytes());
    ThenReads(d2, b2, c.parametric, d1, b1, c.lamportAccounts);
    ThenReads(d3, b3, c.authorized, Then(d2, d1), b2 + b1, (c.parametric, c.lamportAccounts));
    ThenReads(TakeList(TakeArg()), ListBytes(c.args, ArgBytes()), c.args, Then(d3, Then(d2, d1)), b3 + (b2 + b1),
              (c.authorized, (c.parametric, c.lamportAccounts)));
  }

  lemma ContractParted(c: Contract)
    ensures ContractBytes(c)
         == TextBytes(c.name) + ([c.tag] + ([Flag(c.strictWrites)] + ([Flag(c.mutationComplete)] + ListsBytes(c))))
  {
    EightParts(TextBytes(c.name), [c.tag], [Flag(c.strictWrites)], [Flag(c.mutationComplete)],
               ListBytes(c.args, ArgBytes()), ListBytes(c.authorized, RangeBytes()),
               ListBytes(c.parametric, CellsBytes()), ListBytes(c.lamportAccounts, IndexBytes()));
  }

  /** Nested lists and all, a contract is read back in front of any suffix. */
  lemma ContractReads(c: Contract)
    requires Sized(c)
    ensures Reads(TakeContract(), ContractBytes(c), c)
  {
    ContractParted(c);
    ListsRead(c);
    var lists := (c.args, (c.authorized, (c.parametric, c.lamportAccounts)));
    var f, g := Flag(c.strictWrites), Flag(c.mutationComplete);
    ByteReads(g);
    ByteReads(f);
    ByteReads(c.tag);
    TextReads(c.name);
    ThenReads(TakeByte(), [g], g, TakeLists(), ListsBytes(c), lists);
    ThenReads(TakeByte(), [f], f, Then(TakeByte(), TakeLists()), [g] + ListsBytes(c), (g, lists));
    var flags := Then(TakeByte(), Then(TakeByte(), TakeLists()));
    var bytes := [f] + ([g] + ListsBytes(c));
    ThenReads(TakeByte(), [c.tag], c.tag, flags, bytes, (f, (g, lists)));
    ThenReads(TakeText(), TextBytes(c.name), c.name,
              Then(TakeByte(), flags), [c.tag] + bytes, (c.tag, (f, (g, lists))));
    RebuildReads(Then(TakeText(), Then(TakeByte(), flags)), ContractBytes(c),
                 (c.name, (c.tag, (f, (g, lists)))), BuildContract());
    assert BuildContract()((c.name, (c.tag, (f, (g, lists))))) == c;
  }

  // -------------------------------------------------------------------------
  // What the commitment input pins.
  // -------------------------------------------------------------------------

  function Contracts(m: ProgramManifest): seq<Contract> {
    seq(|m.instructions|, k requires 0 <= k < |m.instructions| => m.instructions[k].contract)
  }

  function ContractEncoder(): Contract -> seq<Byte> { (c: Contract) => ContractBytes(c) }

  ghost predicate SizedManifest(m: ProgramManifest) {
    Fits(|m.instructions|) && forall l :: l in m.instructions ==> Sized(l.contract)
  }

  lemma {:induction false} ListedIsContracts(xs: seq<Listed>, cs: seq<Contract>)
    requires |xs| == |cs| && forall k :: 0 <= k < |xs| ==> xs[k].contract == cs[k]
    ensures FlatMap(xs, ListedBytes()) == FlatMap(cs, ContractEncoder())
  {
    if xs != [] {
      ListedIsContracts(xs[..|xs| - 1], cs[..|cs| - 1]);
    }
  }

  /** The bytes are a function of the contracts alone: program name, version and
      account roles never matter. */
  lemma CanonicalOfContracts(m: ProgramManifest)
    ensures CanonicalBytes(m) == DOMAIN + ListBytes(Contracts(m), ContractEncoder())
  {
    ListedIsContracts(m.instructions, Contracts(m));
  }

  lemma ContractsRead(m: ProgramManifest)
    requires SizedManifest(m)
    ensures Reads(TakeList(TakeContract()), ListBytes(Contracts(m), ContractEncoder()), Contracts(m))
  {
    var cs := Contracts(m);
    forall c | c in cs ensures Reads(TakeContract(), ContractEncoder()(c), c) {
      var k :| 0 <= k < |cs| && cs[k] == c;
      assert m.instructions[k] in m.instructions;
      ContractReads(c);
    }
    ListReads(cs, ContractEncoder(), TakeContract());
  }

  lemma SamePrefix(d: seq<Byte>, a: seq<Byte>, b: seq<Byte>)
    requires d + a == d + b
    ensures a == b
  {
    assert (d + a)[|d|..] == a && (d + b)[|d|..] == b;
  }

  /** What one decoder reads from the same bytes is the same. */
  lemma ReadsUnique<T(!new)>(dec: Decoder<T>, bytes: seq<Byte>, x: T, y: T)
    requires Reads(dec, bytes, x) && Reads(dec, bytes, y)
    ensures x == y
  {
    assert dec(bytes + []) == Some((x, []));
  }

  /** Two manifests have the same canonical bytes exactly when they have the
      same mutation contracts in the same order. */
  lemma CanonicalBytesPinContracts(m: ProgramManifest, n: ProgramManifest)
    requires SizedManifest(m) && SizedManifest(n)
    ensures CanonicalBytes(m) == CanonicalBytes(n) <==> Contracts(m) == Contracts(n)
  {
    CanonicalOfContracts(m);
    CanonicalOfContracts(n);
    if CanonicalBytes(m) == CanonicalBytes(n) {
      SamePrefix(DOMAIN, ListBytes(Contracts(m), ContractEncoder()), ListBytes(Contracts(n), ContractEncoder()));
      ContractsRead(m);
      ContractsRead(n);
      ReadsUnique(TakeList(TakeContract()), ListBytes(Contracts(m), ContractEncoder()), Contracts(m), Contracts(n));
    }
  }

  /** One instruction's preimage pins its contract. */
  lemma PreimagePinsContract(c: Contract, d: Contract)
    requires Sized(c) && Sized(d)
    ensures InstructionPreimage(c) == InstructionPreimage(d) <==> c == d
  {
    if InstructionPreimage(c) == InstructionPreimage(d) {
      SamePrefix(DOMAIN + INSTRUCTION, ContractBytes(c), ContractBytes(d));
      ContractReads(c);
      ContractReads(d);
      ReadsUnique(TakeContract(), ContractBytes(c), c, d);
    }
  }

  /** A manifest's bytes are never an instruction's preimage unless the manifest
      lists exactly the number of instructions that the tag ".ins" spells. */
  lemma DomainsApart(m: ProgramManifest, c: Contract)
    requires |m.instructions| % 0x1_0000_0000 != 0x736e_692e
    ensures CanonicalBytes(m) != InstructionPreimage(c)
  {
    if CanonicalBytes(m) == InstructionPreimage(c) {
      var count := Length(|m.instructions|);
      var tail := FlatMap(m.instructions, ListedBytes());
      Assoc(DOMAIN, INSTRUCTION, ContractBytes(c));
      SamePrefix(DOMAIN, count + tail, INSTRUCTION + ContractBytes(c));
      TagDiffers(count, tail, ContractBytes(c), |m.instructions|);
    }
  }

  lemma TagDiffers(count: seq<Byte>, tail: seq<Byte>, body: seq<Byte>, n: nat)
    requires count == Length(n) && count + tail == INSTRUCTION + body
    ensures n % 0x1_0000_0000 == 0x736e_692e
  {
    assert (count + tail)[..4] == count;
    assert (INSTRUCTION + body)[..4] == INSTRUCTION[..4];
    Le32RoundTrip(n % 0x1_0000_0000);
    assert count[0] == 0x2e && count[1] == 0x69 && count[2] == 0x6e && count[3] == 0x73;
  }
}
