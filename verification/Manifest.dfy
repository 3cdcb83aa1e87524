/** The parts of a manifest document that authority depends on. */
module Manifest {
  import opened Orders
  import opened Octets

  type U8 = Byte
  type U16 = n: nat | n < 0x1_0000
  type U32 = n: nat | n < 0x1_0000_0000

  function Times(a: nat, b: nat): nat { a * b }

  /** `size` bytes from `offset` of the account at position `accountIndex`. */
  datatype Range = Range(accountIndex: U8, offset: U32, size: U32) {
    /** Exclusive end, computed in 64 bits, where two 32-bit values cannot overflow. */
    function End(): nat { offset + size }
  }

  /** An exact-cell rule: cell `v` is `cellSize` bytes from `baseOffset + v * stride`. */
  datatype CellRule = CellRule(
    accountIndex: U8, baseOffset: U32, stride: U32, cellSize: U32, count: U32,
    argumentIndex: U8, argument: string, segment: string)
  {
    /** Exclusive end of the whole governed column; none when there is no cell.
        32-bit operands keep the 64-bit arithmetic from overflowing. */
    function EnvelopeEnd(): Option<nat> {
      if count == 0 then None else Some(baseOffset + Times(stride, count - 1) + cellSize)
    }
  }

  datatype Account = Account(name: string, writable: bool, signer: bool, layoutRef: Option<string>)

  datatype Instruction = Instruction(
    name: string,
    tag: U8,
    discriminator: seq<nat>,
    accounts: seq<Account>,
    remainingMax: Option<U16>,
    strictWrites: bool,
    mutationComplete: bool,
    lamportAccounts: seq<U8>,
    writeRanges: seq<Range>,
    cellRules: seq<CellRule>)
  {
    /** The bytes that dispatch to this instruction. */
    function Key(): seq<nat> {
      if discriminator == [] then [tag] else discriminator
    }
  }

  datatype Field = Field(name: string, offset: U32, size: U32) {
    function End(): nat { offset + size }
  }

  datatype Layout = Layout(name: string, layoutId: string, fields: seq<Field>)

  datatype ContextAccount = ContextAccount(
    name: string,
    kind: string,
    writable: bool,
    signer: bool,
    layoutRef: Option<string>,
    policyRef: Option<string>,
    seeds: seq<string>,
    optional: bool,
    lifecycle: Option<string>,
    payer: Option<string>,
    hasOne: seq<string>,
    expectedAddress: Option<string>,
    expectedOwner: Option<string>)
  {
    /** An account without a declared lifecycle is an existing one. */
    function Lifecycle(): string {
      if lifecycle.Some? then lifecycle.value else "existing"
    }
  }

  datatype Context = Context(name: string, instructions: seq<string>, accounts: seq<ContextAccount>)

  type I128 = v: int | -0x8000_0000_0000_0000_0000_0000_0000_0000 <= v < 0x8000_0000_0000_0000_0000_0000_0000_0000

  /** A bound as written: absent, a decimal that parses as `i128`, or text that does not. */
  datatype Bound = Absent | Unreadable | At(value: I128)

  datatype Rule = Rule(field: string, text: string, min: Bound, max: Bound, exact: bool)

  datatype LayoutRules = LayoutRules(layout: string, rules: seq<Rule>)

  datatype Doc = Doc(
    name: string,
    version: string,
    layouts: seq<Layout>,
    instructions: seq<Instruction>,
    contexts: seq<Context>,
    fieldRules: seq<LayoutRules>)

  // -------------------------------------------------------------------------
  // Lookups, all of them "the first one with that name".
  // -------------------------------------------------------------------------

  function FindAccount(accounts: seq<Account>, name: string): (r: Option<nat>)
    ensures r.Some? ==> r.value < |accounts| && accounts[r.value].name == name
    ensures r.Some? ==> forall k :: 0 <= k < r.value ==> accounts[k].name != name
    ensures r.None? ==> forall k :: 0 <= k < |accounts| ==> accounts[k].name != name
  {
    if accounts == [] then None
    else if accounts[0].name == name then Some(0)
    else match FindAccount(accounts[1..], name)
      case None => None
      case Some(k) => Some(k + 1)
  }

  function FindField(fields: seq<Field>, name: string): (r: Option<Field>)
    ensures r.Some? ==> r.value in fields && r.value.name == name
    ensures r.None? ==> forall f :: f in fields ==> f.name != name
  {
    if fields == [] then None
    else if fields[0].name == name then Some(fields[0])
    else FindField(fields[1..], name)
  }

  function FindLayout(layouts: seq<Layout>, name: string): (r: Option<Layout>)
    ensures r.Some? ==> r.value in layouts && r.value.name == name
  {
    if layouts == [] then None
    else if layouts[0].name == name then Some(layouts[0])
    else FindLayout(layouts[1..], name)
  }

  function FindContextAccount(accounts: seq<ContextAccount>, name: string): (r: Option<ContextAccount>)
    ensures r.Some? ==> r.value in accounts && r.value.name == name
    ensures r.None? ==> forall a :: a in accounts ==> a.name != name
  {
    if accounts == [] then None
    else if accounts[0].name == name then Some(accounts[0])
    else FindContextAccount(accounts[1..], name)
  }

  function FieldNamed(name: string): Field -> bool { (x: Field) => x.name == name }

  lemma {:induction false} FindFieldFirst(xs: seq<Field>, name: string)
    ensures forall k: nat :: IsFirst(xs, FieldNamed(name), k) ==> FindField(xs, name) == Some(xs[k])
    ensures Nowhere(xs, FieldNamed(name)) ==> FindField(xs, name) == None
  {
    if xs != [] && xs[0].name != name {
      FindFieldFirst(xs[1..], name);
      forall k: nat ensures IsFirst(xs, FieldNamed(name), k) ==> FindField(xs, name) == Some(xs[k]) {
        FirstLater(xs, FieldNamed(name), k);
      }
    }
  }

  function LayoutNamedAs(name: string): Layout -> bool { (x: Layout) => x.name == name }

  lemma {:induction false} FindLayoutFirst(xs: seq<Layout>, name: string)
    ensures forall k: nat :: IsFirst(xs, LayoutNamedAs(name), k) ==> FindLayout(xs, name) == Some(xs[k])
    ensures Nowhere(xs, LayoutNamedAs(name)) ==> FindLayout(xs, name) == None
  {
    if xs != [] && xs[0].name != name {
      FindLayoutFirst(xs[1..], name);
      forall k: nat ensures IsFirst(xs, LayoutNamedAs(name), k) ==> FindLayout(xs, name) == Some(xs[k]) {
        FirstLater(xs, LayoutNamedAs(name), k);
      }
    }
  }

  function ContextNamed(name: string): ContextAccount -> bool { (x: ContextAccount) => x.name == name }

  lemma {:induction false} FindContextAccountFirst(xs: seq<ContextAccount>, name: string)
    ensures forall k: nat :: IsFirst(xs, ContextNamed(name), k) ==> FindContextAccount(xs, name) == Some(xs[k])
    ensures Nowhere(xs, ContextNamed(name)) ==> FindContextAccount(xs, name) == None
  {
    if xs != [] && xs[0].name != name {
      FindContextAccountFirst(xs[1..], name);
      forall k: nat ensures IsFirst(xs, ContextNamed(name), k) ==> FindContextAccount(xs, name) == Some(xs[k]) {
        FirstLater(xs, ContextNamed(name), k);
      }
    }
  }

  // -------------------------------------------------------------------------
  // Well-formedness a reader may ask of a document.
  // -------------------------------------------------------------------------

  predicate UniqueAccounts(accounts: seq<Account>) {
    forall i, j :: 0 <= i < j < |accounts| ==> accounts[i].name != accounts[j].name
  }

  predicate UniqueFields(fields: seq<Field>) {
    forall f, g :: f in fields && g in fields && f.name == g.name ==> f == g
  }
}
