/** What a manifest grants, said without reference to the diff: bytes, signers,
    writable accounts, lamports, variadic accounts, accepted accounts. */
module Rights {
  import opened Orders
  import opened Manifest
  import opened Constraints
  import opened Authority

  /** Some account of that name is writable. */
  ghost predicate Writes(ix: Instruction, name: string) {
    exists k :: 0 <= k < |ix.accounts| && ix.accounts[k].name == name && ix.accounts[k].writable
  }

  /** Some account of that name must sign. */
  ghost predicate Signs(ix: Instruction, name: string) {
    exists k :: 0 <= k < |ix.accounts| && ix.accounts[k].name == name && ix.accounts[k].signer
  }

  /** A declared range aims at position `k` and holds the byte. */
  ghost predicate Ranged(ix: Instruction, k: nat, byte: nat) {
    exists r :: r in ix.writeRanges && r.accountIndex == k && r.offset <= byte < r.offset + r.size
  }

  /** The handler may write this byte of the account: the account is writable,
      and under strict writes some declared range holds the byte. */
  ghost predicate MayWrite(ix: Instruction, name: string, byte: nat) {
    exists k :: 0 <= k < |ix.accounts| && ix.accounts[k].name == name && ix.accounts[k].writable
      && (ix.strictWrites ==> Ranged(ix, k, byte))
  }

  /** The handler may move the account's lamports: the account is writable, and
      a complete contract lists it. */
  ghost predicate MayMoveLamports(ix: Instruction, name: string) {
    exists k :: 0 <= k < |ix.accounts| && ix.accounts[k].name == name && ix.accounts[k].writable
      && (ix.mutationComplete ==> k in ix.lamportAccounts)
  }

  /** How many variadic accounts the instruction takes. */
  function Ceiling(ix: Instruction): nat {
    if ix.remainingMax.Some? then ix.remainingMax.value else 0
  }

  /** The layout the document gives the account. */
  function LayoutNamed(ix: Instruction, name: string, doc: Doc): Option<Layout> {
    match FindAccount(ix.accounts, name)
    case None => None
    case Some(k) => LayoutOf(ix.accounts[k], doc)
  }

  predicate Holds(f: Field, byte: nat) { f.offset <= byte < f.offset + f.size }

  /** The byte had a counterpart the old handler could write. Where both layouts
      are known the counterpart is the same byte of the same field, for every
      field the byte is in, or the same byte outside all fields on both sides;
      otherwise it is the byte itself. */
  ghost predicate HadCounterpart(u: Upgrade, name: string, byte: nat) {
    match (LayoutNamed(u.was, name, u.wasDoc), LayoutNamed(u.now, name, u.nowDoc))
    case (Some(ol), Some(nl)) =>
      && (forall f :: f in nl.fields && Holds(f, byte) ==>
           exists g :: g in ol.fields && g.name == f.name && byte - f.offset < g.size
             && MayWrite(u.was, name, g.offset + (byte - f.offset)))
      && ((forall f :: f in nl.fields ==> !Holds(f, byte)) ==>
           MayWrite(u.was, name, byte) && forall g :: g in ol.fields ==> !Holds(g, byte))
    case _ => MayWrite(u.was, name, byte)
  }

  /** The byte had a writable counterpart, unless the old handler could write the
      whole account. */
  ghost predicate ByteKept(u: Upgrade, name: string, byte: nat) {
    (!u.was.strictWrites && Writes(u.was, name)) || HadCounterpart(u, name, byte)
  }

  ghost predicate BytesKept(u: Upgrade) {
    forall name, byte :: MayWrite(u.now, name, byte) ==> ByteKept(u, name, byte)
  }

  /** The first account of that name may have the byte written. */
  ghost predicate FirstMayWrite(ix: Instruction, name: string, byte: nat) {
    var k := FindAccount(ix.accounts, name);
    k.Some? && ix.accounts[k.value].writable && (ix.strictWrites ==> Ranged(ix, k.value, byte))
  }

  /** Bytes that only a later account of some name may have written are kept;
      nothing to ask where names are unique. */
  ghost predicate NamesakesKept(u: Upgrade) {
    forall name, byte :: MayWrite(u.now, name, byte) && !FirstMayWrite(u.now, name, byte) ==> ByteKept(u, name, byte)
  }

  ghost predicate WritableKept(u: Upgrade) {
    forall name :: Writes(u.now, name) ==> Writes(u.was, name)
  }

  ghost predicate SignersKept(u: Upgrade) {
    forall name :: Signs(u.was, name) ==> Signs(u.now, name)
  }

  ghost predicate LamportsKept(u: Upgrade) {
    forall name :: MayMoveLamports(u.now, name) ==> MayMoveLamports(u.was, name)
  }

  /** The instruction lists the account, and its context says it is a program. */
  predicate MayCall(ix: Instruction, ctx: Option<Context>, name: string) {
    var c := ContextAccountOf(ctx, name);
    FindAccount(ix.accounts, name).Some? && c.Some? && IsProgramKind(c.value.kind)
  }

  /** A program the new handler may call was an account of the old one, where it
      was a program of the same kind, or not checked, or not constrained. */
  ghost predicate ProgramsKept(u: Upgrade) {
    forall name :: MayCall(u.now, NowContext(u), name) ==>
      var c := ContextAccountOf(WasContext(u), name);
      && FindAccount(u.was.accounts, name).Some?
      && (c.Some? ==> IsUncheckedKind(c.value.kind) || c.value.kind == ContextAccountOf(NowContext(u), name).value.kind)
  }

  /** The account is on both sides and the old manifest constrained it. */
  ghost predicate Constrained(u: Upgrade, name: string) {
    && FindAccount(u.was.accounts, name).Some? && FindAccount(u.now.accounts, name).Some?
    && ContextAccountOf(WasContext(u), name).Some?
  }

  /** What may be presented as the account now could be presented before. */
  ghost predicate ConstraintsKept(u: Upgrade, name: string)
    requires Constrained(u, name)
  {
    var c, d := ContextAccountOf(WasContext(u), name), ContextAccountOf(NowContext(u), name);
    forall p :: (d.Some? ==> Admits(d.value, p)) ==> Admits(c.value, p)
  }

  /** The new manifest still publishes constraints for the account, a payer if it
      had one, and its demand on whether the account exists. */
  predicate StillPublished(u: Upgrade, name: string) {
    var c, d := ContextAccountOf(WasContext(u), name), ContextAccountOf(NowContext(u), name);
    c.Some? ==> d.Some? && !PayerDropped(c.value, d.value) && !StateFreed(c.value, d.value)
  }

  predicate LamportsInRange(ix: Instruction) {
    forall i :: i in ix.lamportAccounts ==> i < |ix.accounts|
  }

  predicate WellFormed(ix: Instruction) {
    UniqueAccounts(ix.accounts) && LamportsInRange(ix)
  }

  /** Nothing the new entry point grants is new. */
  ghost predicate GrantsNothingNew(u: Upgrade) {
    && WritableKept(u) && BytesKept(u) && SignersKept(u) && LamportsKept(u)
    && ProgramsKept(u) && Ceiling(u.now) <= Ceiling(u.was)
    && forall name :: Constrained(u, name) ==> (ConstraintsKept(u, name) <==> StillPublished(u, name))
  }
}
