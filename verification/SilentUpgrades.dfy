/** Upgrades that grant something and draw no blocking finding: what the
    conditions of the soundness theorems exclude. */
module SilentUpgrades {
  import opened Orders
  import opened Manifest
  import opened Findings
  import opened Constraints
  import opened Authority
  import opened Program
  import opened Report
  import opened Rights
  import opened Soundness
  import FieldRules

  // -------------------------------------------------------------------------
  // What duplicate discriminators hide.
  // -------------------------------------------------------------------------

  const BARE := Instruction("bare", 7, [], [], None, true, true, [], [], [])

  function BareDoc(ixs: seq<Instruction>): Doc { Doc("program", "1", [], ixs, [], []) }

  lemma BareEntry(was: Doc, now: Doc)
    requires was.contexts == [] && now.contexts == []
    ensures InstructionFindings("bare", Upgrade(BARE, BARE, was, now)) == []
  {
    assert LamportNames(BARE) == [];
  }

  lemma DispatchLater(a: Instruction, b: Instruction)
    requires a.Key() == b.Key()
    ensures Dispatch([a, b]) == Dispatch([b]) == map[b.Key() := b]
  {
    var one, two := [b], [a, b];
    assert two[..1] == [a] && [a][..0] == [] && one[..0] == [];
    assert Dispatch([a]) == Dispatch([])[a.Key() := a];
    assert Dispatch(one) == Dispatch([])[b.Key() := b];
    assert Dispatch(two) == Dispatch([a])[b.Key() := b];
  }

  lemma ShadowedEntries(shadow: Instruction, was: Doc, now: Doc)
    requires shadow.Key() == BARE.Key() && was == BareDoc([BARE]) && now == BareDoc([shadow, BARE])
    ensures FlatMap(OrderedKeys(now.instructions), EntryFindings(was, now)) == []
    ensures FlatMap(OrderedKeys(was.instructions), RemovedFindings(was, now)) == []
  {
    DispatchLater(shadow, BARE);
    BareEntry(was, now);
    hide InstructionFindings, OrderedKeys, Dispatch;
    forall key ensures key in OrderedKeys(now.instructions) <==> key == BARE.Key() {
      OrderedKeysMember(now.instructions, key);
    }
    forall key ensures key in OrderedKeys(was.instructions) <==> key == BARE.Key() {
      OrderedKeysMember(was.instructions, key);
    }
    FlatMapEmpty(OrderedKeys(now.instructions), EntryFindings(was, now));
    FlatMapEmpty(OrderedKeys(was.instructions), RemovedFindings(was, now));
  }

  /** Whatever `shadow` grants, listing it before another instruction with its
      discriminator draws no finding at all. */
  lemma ShadowIsNotCompared(shadow: Instruction)
    requires shadow.Key() == BARE.Key()
    ensures ProgramFindings(BareDoc([BARE]), BareDoc([shadow, BARE])) == []
  {
    var was, now := BareDoc([BARE]), BareDoc([shadow, BARE]);
    ShadowedEntries(shadow, was, now);
    NoRules(was, now);
    hide FlatMap, EntryFindings, RemovedFindings, FieldRules.RuleFindings;
  }

  lemma NoRules(was: Doc, now: Doc)
    requires was.fieldRules == [] && now.fieldRules == []
    ensures FieldRules.RuleFindings(was, now) == []
  {
    assert FieldRules.Entries(was) == [] && FieldRules.Entries(now) == [];
  }

  /** A writable account that no instruction had before, and the verdict is "not widened". */
  lemma ShadowedGrantIsNotWidened(say: Finding -> string)
    ensures
      var shadow := BARE.(accounts := [Account("vault", true, false, None)], strictWrites := false);
      var was, now := BareDoc([BARE]), BareDoc([shadow, BARE]);
      && VerdictOn(say, was, now) == NotWidened
      && shadow in now.instructions && MayWrite(shadow, "vault", 0)
      && forall ix :: ix in was.instructions ==> !Writes(ix, "vault")
  {
    var shadow := BARE.(accounts := [Account("vault", true, false, None)], strictWrites := false);
    ShadowIsNotCompared(shadow);
    hide ProgramFindings, VerdictOf, Listed;
    VerdictExact(say, []);
    assert shadow.accounts[0].name == "vault";
  }

  // -------------------------------------------------------------------------
  // Documents of one entry point.
  // -------------------------------------------------------------------------

  lemma OneEntry(was: Doc, now: Doc, a: Instruction, b: Instruction)
    requires was.instructions == [a] && now.instructions == [b] && a.Key() == b.Key()
    requires was.name == now.name && was.fieldRules == now.fieldRules == []
    requires Quiet(InstructionFindings(b.name, Upgrade(a, b, was, now)))
    ensures Quiet(ProgramFindings(was, now))
  {
    OneDispatch(a);
    OneDispatch(b);
    NoRules(was, now);
    hide InstructionFindings, OrderedKeys, Dispatch, FieldRules.RuleFindings;
    var ks, ls, e, r := OrderedKeys([b]), OrderedKeys([a]), EntryFindings(was, now), RemovedFindings(was, now);
    forall key ensures key in ks <==> key == b.Key() { OrderedKeysMember([b], key); }
    forall key ensures key in ls <==> key == b.Key() { OrderedKeysMember([a], key); }
    FlatMapQuiet(ks, e);
    FlatMapQuiet(ls, r);
    QuietConcat([] + FlatMap(ks, e) + [], FlatMap(ls, r));
    QuietConcat([] + FlatMap(ks, e), []);
    QuietConcat([], FlatMap(ks, e));
  }

  lemma OneDispatch(ix: Instruction)
    ensures Dispatch([ix]) == map[ix.Key() := ix]
  {
    assert [ix][..0] == [];
    assert Dispatch([ix]) == Dispatch([])[ix.Key() := ix];
  }

  /** Account by account, where nothing else changed. */
  lemma QuietEntry(at: string, u: Upgrade)
    requires u.was.name == u.now.name && u.was.strictWrites == u.now.strictWrites
    requires u.was.mutationComplete == u.now.mutationComplete && u.was.lamportAccounts == u.now.lamportAccounts == []
    requires u.was.remainingMax == u.now.remainingMax == None && (WasContext(u).Some? ==> NowContext(u).Some?)
    requires forall a :: a in u.now.accounts ==> Quiet(AccountFindings(at, u)(a))
    requires forall a :: a in u.was.accounts ==> Quiet(GoneFindings(at, u)(a))
    ensures Quiet(InstructionFindings(at, u))
  {
    assert LamportNames(u.was) == LamportNames(u.now) == [];
    assert HeaderFindings(at, u) == [];
    hide HeaderFindings, AccountFindings, GoneFindings, FlatMap;
    var kept, gone := AccountFindings(at, u), GoneFindings(at, u);
    FlatMapQuiet(u.now.accounts, kept);
    FlatMapQuiet(u.was.accounts, gone);
    QuietConcat([] + FlatMap(u.now.accounts, kept), FlatMap(u.was.accounts, gone));
    QuietConcat([], FlatMap(u.now.accounts, kept));
  }

  const VAULT := Account("vault", true, false, None)

  // -------------------------------------------------------------------------
  // A second account of the same name.
  // -------------------------------------------------------------------------

  const ONE_VAULT := BARE.(accounts := [VAULT], writeRanges := [Range(0, 0, 8)])
  const TWO_VAULTS := BARE.(accounts := [VAULT, VAULT], writeRanges := [Range(0, 0, 8), Range(1, 0, 100)])

  lemma VaultRanges()
    ensures RangesAt(ONE_VAULT.writeRanges, 0) == RangesAt(TWO_VAULTS.writeRanges, 0)
  {
    var one, two := ONE_VAULT.writeRanges, TWO_VAULTS.writeRanges;
    assert two[..1] == one && one[..0] == [];
  }

  lemma SecondVaultIsQuiet(at: string, u: Upgrade)
    requires u == Upgrade(ONE_VAULT, TWO_VAULTS, BareDoc([ONE_VAULT]), BareDoc([TWO_VAULTS]))
    ensures Quiet(KeptAccountFindings(at, u, VAULT, VAULT))
  {
    VaultRanges();
    var before, after := AuthorityOf(u.was, "vault", u.wasDoc), AuthorityOf(u.now, "vault", u.nowDoc);
    assert FindAccount(u.was.accounts, "vault") == FindAccount(u.now.accounts, "vault") == Some(0);
    QuietData(at, "vault", before, after);
    var a, b := RoleFindings(at, VAULT, VAULT), DataFindings(at, "vault", before, after);
    QuietConcat(a + b + CellFindings(at, "vault", u.was, u.now), SharedContextFindings(at, u, "vault"));
    QuietConcat(a + b, CellFindings(at, "vault", u.was, u.now));
    QuietConcat(a, b);
  }

  lemma TwoVaultsAreQuiet(at: string, u: Upgrade)
    requires u == Upgrade(ONE_VAULT, TWO_VAULTS, BareDoc([ONE_VAULT]), BareDoc([TWO_VAULTS]))
    ensures Quiet(InstructionFindings(at, u))
  {
    SecondVaultIsQuiet(at, u);
    assert FindAccount(u.was.accounts, "vault") == FindAccount(u.now.accounts, "vault") == Some(0);
    hide KeptAccountFindings, FlatMap, Quiet;
    assert AccountFindings(at, u)(VAULT) == KeptAccountFindings(at, u, VAULT, VAULT);
    assert Quiet(GoneFindings(at, u)(VAULT)) by { QuietNone(GoneFindings(at, u)(VAULT)); }
    QuietEntry(at, u);
  }

  lemma QuietNone(fs: seq<Finding>)
    requires fs == []
    ensures Quiet(fs)
  {}

  lemma SecondVaultWrites()
    ensures MayWrite(TWO_VAULTS, "vault", 50) && !MayWrite(ONE_VAULT, "vault", 50)
  {
    var one, two := ONE_VAULT, TWO_VAULTS;
    assert two.writeRanges[1] == Range(1, 0, 100) && two.accounts[1] == VAULT;
    assert Ranged(two, 1, 50);
    assert forall r :: r in one.writeRanges ==> r == Range(0, 0, 8);
  }

  /** A second writable account of a name takes bytes of its own, and the verdict is "not widened". */
  lemma SecondOfNameIsNotWidened(say: Finding -> string)
    ensures var was, now := BareDoc([ONE_VAULT]), BareDoc([TWO_VAULTS]);
      && VerdictOn(say, was, now) == NotWidened
      && MayWrite(TWO_VAULTS, "vault", 50) && !MayWrite(ONE_VAULT, "vault", 50)
  {
    var was, now := BareDoc([ONE_VAULT]), BareDoc([TWO_VAULTS]);
    SecondVaultWrites();
    hide MayWrite, ProgramFindings, InstructionFindings, Quiet, VerdictOf, Listed;
    TwoVaultsAreQuiet("bare", Upgrade(ONE_VAULT, TWO_VAULTS, was, now));
    OneEntry(was, now, ONE_VAULT, TWO_VAULTS);
    VerdictExact(say, ProgramFindings(was, now));
  }

  // -------------------------------------------------------------------------
  // A declared context that stops listing an account.
  // -------------------------------------------------------------------------

  const WITH_VAULT := BARE.(accounts := [VAULT])

  function ContextDoc(listed: seq<ContextAccount>): Doc {
    Doc("program", "1", [], [WITH_VAULT], [Context("bare", ["bare"], listed)], [])
  }

  lemma UnlistedIsQuiet(at: string, c: ContextAccount, u: Upgrade)
    requires c.name == "vault" && u == Upgrade(WITH_VAULT, WITH_VAULT, ContextDoc([c]), ContextDoc([]))
    ensures Quiet(InstructionFindings(at, u))
    ensures ContextAccountOf(WasContext(u), "vault") == Some(c) && ContextAccountOf(NowContext(u), "vault") == None
  {
    assert FindAccount(u.now.accounts, "vault") == Some(0);
    assert ContextAccountOf(WasContext(u), "vault") == Some(c) && ContextAccountOf(NowContext(u), "vault") == None;
    var data := AuthorityOf(u.was, "vault", u.wasDoc);
    QuietData(at, "vault", data, data);
    QuietConcat(DataFindings(at, "vault", data, data), []);
    assert AccountFindings(at, u)(VAULT) == [] + DataFindings(at, "vault", data, data) + [] + [];
    QuietNone(GoneFindings(at, u)(VAULT));
    hide InstructionFindings, AccountFindings, GoneFindings, Quiet;
    QuietEntry(at, u);
  }

  /** Whatever a declared context demanded of an account, no longer listing it is
      "not widened", and something refused before may be presented. */
  lemma UnlistedIsNotWidened(say: Finding -> string, c: ContextAccount)
    requires c.name == "vault"
    ensures var was, now := ContextDoc([c]), ContextDoc([]);
      var u := Upgrade(WITH_VAULT, WITH_VAULT, was, now);
      && VerdictOn(say, was, now) == NotWidened
      && Constrained(u, "vault") && !ConstraintsKept(u, "vault")
  {
    var was, now := ContextDoc([c]), ContextDoc([]);
    var u := Upgrade(WITH_VAULT, WITH_VAULT, was, now);
    UnlistedIsQuiet("bare", c, u);
    OneEntry(was, now, WITH_VAULT, WITH_VAULT);
    VerdictExact(say, ProgramFindings(was, now));
    hide InstructionFindings, ProgramFindings;
    assert FindAccount(u.now.accounts, "vault").Some?;
    ConstraintsSound("bare", u, "vault");
  }
}
