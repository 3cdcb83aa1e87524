/** Soundness of the diff: when nothing is reported as widened or for review,
    nothing the new manifest grants is new. */
module Soundness {
  import opened Orders
  import opened Intervals
  import opened Manifest
  import opened Findings
  import opened FieldSpace
  import opened Constraints
  import opened Authority
  import opened Program
  import opened Report
  import opened Rights
  import FieldRules

  // -------------------------------------------------------------------------
  // Taking a quiet instruction apart.
  // -------------------------------------------------------------------------

  lemma QuietInstruction(at: string, u: Upgrade)
    requires Quiet(InstructionFindings(at, u))
    ensures Quiet(FlagFindings(at, u)) && Quiet(LamportContractFindings(at, u))
    ensures Quiet(RemainingFindings(at, u)) && Quiet(UnavailableFindings(at, u))
    ensures forall a :: a in u.now.accounts ==> Quiet(AccountFindings(at, u)(a))
    ensures forall a :: a in u.was.accounts ==> Quiet(GoneFindings(at, u)(a))
  {
    var h := HeaderFindings(at, u);
    var kept := FlatMap(u.now.accounts, AccountFindings(at, u));
    QuietConcat(h + kept, FlatMap(u.was.accounts, GoneFindings(at, u)));
    QuietConcat(h, kept);
    FlatMapQuiet(u.now.accounts, AccountFindings(at, u));
    FlatMapQuiet(u.was.accounts, GoneFindings(at, u));
    var a, b := FlagFindings(at, u), LamportContractFindings(at, u);
    QuietConcat(a + b + RemainingFindings(at, u), UnavailableFindings(at, u));
    QuietConcat(a + b, RemainingFindings(at, u));
    QuietConcat(a, b);
  }

  lemma QuietKept(at: string, u: Upgrade, was: Account, now: Account)
    requires Quiet(KeptAccountFindings(at, u, was, now))
    ensures Quiet(RoleFindings(at, was, now)) && Quiet(SharedContextFindings(at, u, now.name))
    ensures Quiet(CellFindings(at, now.name, u.was, u.now))
    ensures Quiet(DataFindings(at, now.name, AuthorityOf(u.was, now.name, u.wasDoc),
                               AuthorityOf(u.now, now.name, u.nowDoc)))
  {
    var a := RoleFindings(at, was, now);
    var b := DataFindings(at, now.name, AuthorityOf(u.was, now.name, u.wasDoc), AuthorityOf(u.now, now.name, u.nowDoc));
    var c := CellFindings(at, now.name, u.was, u.now);
    QuietConcat(a + b + c, SharedContextFindings(at, u, now.name));
    QuietConcat(a + b, c);
    QuietConcat(a, b);
  }

  /** Roles are quiet exactly when no signature is dropped and nothing becomes writable. */
  lemma QuietRoles(at: string, was: Account, now: Account)
    ensures Quiet(RoleFindings(at, was, now))
       <==> (was.signer ==> now.signer) && (now.writable ==> was.writable)
  {
    var fs := RoleFindings(at, was, now);
    if was.signer && !now.signer { assert fs[0] in fs && Blocks(fs[0]); }
    if !was.writable && now.writable { assert fs[|fs| - 1] in fs && Blocks(fs[|fs| - 1]); }
  }

  /** A quiet account that can write, that is a program, or that is kept, was there before. */
  lemma QuietAccount(at: string, u: Upgrade, a: Account)
    requires Quiet(AccountFindings(at, u)(a))
    ensures var k := FindAccount(u.was.accounts, a.name);
      && (a.writable || IsProgram(NowContext(u), a.name) ==> k.Some?)
      && (k.Some? ==> Quiet(KeptAccountFindings(at, u, u.was.accounts[k.value], a)))
  {
    QuietNewAccount(at, u, a);
  }

  predicate IsProgram(ctx: Option<Context>, name: string) {
    var c := ContextAccountOf(ctx, name);
    c.Some? && IsProgramKind(c.value.kind)
  }

  /** An added account is quiet exactly when it is read-only and the context of
      the new instruction does not say that it is a program. */
  lemma QuietNewAccount(at: string, u: Upgrade, a: Account)
    ensures Quiet(NewAccountFindings(at, u, a)) <==> !a.writable && !IsProgram(NowContext(u), a.name)
  {
    var fs := NewAccountFindings(at, u, a);
    assert fs[0] in fs;
  }

  lemma UniquePosition(accounts: seq<Account>, k: nat)
    requires UniqueAccounts(accounts) && k < |accounts|
    ensures FindAccount(accounts, accounts[k].name) == Some(k)
  {}

  // -------------------------------------------------------------------------
  // Bytes.
  // -------------------------------------------------------------------------

  /** The static ranges of a position cover exactly the bytes declared for it. */
  lemma {:induction false} RangesAtCover(ranges: seq<Range>, k: nat, byte: nat)
    ensures byte in Bytes(RangesAt(ranges, k))
       <==> exists r :: r in ranges && r.accountIndex == k && r.offset <= byte < r.End()
  {
    if ranges != [] {
      var init, last := ranges[..|ranges| - 1], ranges[|ranges| - 1];
      RangesAtCover(init, k, byte);
      assert forall r :: r in ranges <==> r in init || r == last by { assert ranges == init + [last]; }
      BytesSnoc(RangesAt(init, k), Interval(last.offset, last.End()));
      if last.accountIndex != k { assert RangesAt(init, k) + [] == RangesAt(init, k); }
    }
  }

  /** Authority `after` reaches no further than authority `before`. */
  ghost predicate ReachesNoFurther(after: DataAuthority, before: DataAuthority) {
    match (before, after)
    case (_, NoWrites) => true
    case (Unbounded, _) => true
    case (_, Unbounded) => false
    case (NoWrites, Ranges(iv, _)) => iv == []
    case (Ranges(oiv, ol), Ranges(niv, nl)) =>
      if ol.Some? && nl.Some?
      then forall site :: Reaches(Bytes(niv), nl.value, site) ==> ReachesFirst(Bytes(oiv), ol.value, site)
      else Bytes(niv) <= Bytes(oiv)
  }

  /** The data comparison is quiet exactly when authority did not grow. */
  lemma QuietData(at: string, name: string, before: DataAuthority, after: DataAuthority)
    ensures Quiet(DataFindings(at, name, before, after)) <==> ReachesNoFurther(after, before)
  {
    var fs := DataFindings(at, name, before, after);
    match (before, after) {
      case (Ranges(oiv, ol), Ranges(niv, nl)) =>
        var gained := RangesBeyond(niv, nl, oiv, ol);
        var a := PartsFinding(at, name, Widened, WriteRangeWidened, gained);
        var b := PartsFinding(at, name, Narrowed, WriteRangeNarrowed, RangesBeyond(oiv, ol, niv, nl));
        QuietConcat(a + b, LayoutFindings(at, name, ol, nl));
        QuietConcat(a, b);
        if ol.Some? && nl.Some? {
          BeyondEmpty(Bytes(niv), nl.value, Bytes(oiv), ol.value);
        } else {
          SubtractEmpty(Bytes(niv), Bytes(oiv));
        }
        assert gained != [] ==> a[0] in a && Blocks(a[0]);
      case (NoWrites, Ranges(iv, layout)) =>
        assert iv != [] ==> fs[0] in fs && Blocks(fs[0]);
      case (NoWrites, Unbounded) => assert fs[0] in fs && Blocks(fs[0]);
      case (Ranges(_, _), Unbounded) => assert fs[0] in fs && Blocks(fs[0]);
      case _ =>
    }
  }

  /** Writing a byte, in terms of the account's authority. */
  lemma MayWriteAuthority(ix: Instruction, name: string, doc: Doc, byte: nat)
    ensures
      match AuthorityOf(ix, name, doc)
      case NoWrites => !FirstMayWrite(ix, name, byte)
      case Unbounded => !ix.strictWrites && Writes(ix, name)
      case Ranges(iv, layout) =>
        && layout == LayoutNamed(ix, name, doc)
        && (FirstMayWrite(ix, name, byte) <==> byte in Bytes(iv))
        && (byte in Bytes(iv) ==> MayWrite(ix, name, byte))
  {
    var k := FindAccount(ix.accounts, name);
    if k.Some? { RangesAtCover(ix.writeRanges, k.value, byte); }
  }

  /** Where names are unique the first account of a name is the only one. */
  lemma UniqueNamesakes(u: Upgrade)
    requires UniqueAccounts(u.now.accounts)
    ensures NamesakesKept(u)
  {
    forall name, byte | MayWrite(u.now, name, byte) ensures FirstMayWrite(u.now, name, byte) {
      var k :| 0 <= k < |u.now.accounts| && u.now.accounts[k].name == name && u.now.accounts[k].writable
        && (u.now.strictWrites ==> Ranged(u.now, k, byte));
      UniquePosition(u.now.accounts, k);
    }
  }

  /** A byte of the new write set whose site the old one reaches had a counterpart. */
  lemma SiteCounterpart(u: Upgrade, name: string, byte: nat, niv: seq<Interval>, nl: Layout,
                        oiv: seq<Interval>, ol: Layout)
    requires AuthorityOf(u.was, name, u.wasDoc) == Ranges(oiv, Some(ol))
    requires LayoutNamed(u.now, name, u.nowDoc) == Some(nl)
    requires byte in Bytes(niv)
    requires forall site :: Reaches(Bytes(niv), nl, site) ==> ReachesFirst(Bytes(oiv), ol, site)
    ensures HadCounterpart(u, name, byte)
  {
    MayWriteAuthority(u.was, name, u.wasDoc, byte);
    forall f | f in nl.fields && Holds(f, byte)
      ensures exists g ::
        && g in ol.fields && g.name == f.name && byte - f.offset < g.size
        && MayWrite(u.was, name, g.offset + (byte - f.offset))
    {
      var rel := byte - f.offset;
      RelativeMember(Bytes(niv), f, rel);
      assert Reaches(Bytes(niv), nl, InField(f.name, rel));
      var g := FindField(ol.fields, f.name).value;
      RelativeMember(Bytes(oiv), g, rel);
      MayWriteAuthority(u.was, name, u.wasDoc, g.offset + rel);
    }
    if forall f :: f in nl.fields ==> !Holds(f, byte) {
      FieldBytes(nl, byte);
      FieldBytes(ol, byte);
      assert Reaches(Bytes(niv), nl, OutsideFields(byte));
    }
  }

  lemma FieldBytes(layout: Layout, byte: nat)
    ensures byte in Bytes(FieldRanges(layout.fields))
       <==> exists f :: f in layout.fields && Holds(f, byte)
  {
    var ranges := FieldRanges(layout.fields);
    if byte in Bytes(ranges) {
      var k := Coverer(ranges, byte);
      assert layout.fields[k] in layout.fields;
    }
    if f :| f in layout.fields && Holds(f, byte) {
      var k :| 0 <= k < |layout.fields| && layout.fields[k] == f;
      Covers(ranges, k, byte);
    }
  }

  lemma BytesSound(at: string, u: Upgrade, name: string, byte: nat)
    requires Quiet(InstructionFindings(at, u)) && FirstMayWrite(u.now, name, byte)
    ensures ByteKept(u, name, byte)
  {
    var a := u.now.accounts[FindAccount(u.now.accounts, name).value];
    QuietInstruction(at, u);
    assert a in u.now.accounts;
    QuietAccount(at, u, a);
    var j := FindAccount(u.was.accounts, name).value;
    QuietKept(at, u, u.was.accounts[j], a);
    var before, after := AuthorityOf(u.was, name, u.wasDoc), AuthorityOf(u.now, name, u.nowDoc);
    QuietData(at, name, before, after);
    MayWriteAuthority(u.now, name, u.nowDoc, byte);
    MayWriteAuthority(u.was, name, u.wasDoc, byte);
    assert Bytes([]) == {};
    match (before, after) {
      case (Ranges(oiv, ol), Ranges(niv, nl)) =>
        if ol.Some? && nl.Some? {
          SiteCounterpart(u, name, byte, niv, nl.value, oiv, ol.value);
        }
      case _ =>
    }
  }

  // -------------------------------------------------------------------------
  // Accounts, signers, lamports, variadic accounts.
  // -------------------------------------------------------------------------

  lemma WritableSound(at: string, u: Upgrade)
    requires Quiet(InstructionFindings(at, u))
    ensures WritableKept(u)
  {
    QuietInstruction(at, u);
    forall name | Writes(u.now, name) ensures Writes(u.was, name) {
      var k :| 0 <= k < |u.now.accounts| && u.now.accounts[k].name == name && u.now.accounts[k].writable;
      var a := u.now.accounts[k];
      assert a in u.now.accounts;
      QuietAccount(at, u, a);
      var j := FindAccount(u.was.accounts, name).value;
      QuietKept(at, u, u.was.accounts[j], a);
      QuietRoles(at, u.was.accounts[j], a);
    }
  }

  lemma SignersSound(at: string, u: Upgrade)
    requires Quiet(InstructionFindings(at, u)) && UniqueAccounts(u.was.accounts)
    ensures SignersKept(u)
  {
    QuietInstruction(at, u);
    forall name | Signs(u.was, name) ensures Signs(u.now, name) {
      var k :| 0 <= k < |u.was.accounts| && u.was.accounts[k].name == name && u.was.accounts[k].signer;
      var was := u.was.accounts[k];
      assert was in u.was.accounts;
      UniquePosition(u.was.accounts, k);
      match FindAccount(u.now.accounts, name) {
        case None =>
          var fs := GoneFindings(at, u)(was);
          assert fs[0] in fs && Blocks(fs[0]);
          assert false;
        case Some(j) =>
          var a := u.now.accounts[j];
          assert a in u.now.accounts;
          QuietAccount(at, u, a);
          QuietKept(at, u, was, a);
          QuietRoles(at, was, a);
      }
    }
  }

  lemma LamportNamesMember(ix: Instruction, name: string)
    ensures name in LamportNames(ix)
       <==> exists i :: i in ix.lamportAccounts && LamportName(ix, i) == name
  {
    var raw := seq(|ix.lamportAccounts|,
                   k requires 0 <= k < |ix.lamportAccounts| => LamportName(ix, ix.lamportAccounts[k]));
    assert LamportNames(ix) == SortDedup(raw, StringLe());
    if name in raw {
      var k :| 0 <= k < |raw| && raw[k] == name;
      assert ix.lamportAccounts[k] in ix.lamportAccounts;
    }
    if i :| i in ix.lamportAccounts && LamportName(ix, i) == name {
      var k :| 0 <= k < |ix.lamportAccounts| && ix.lamportAccounts[k] == i;
      assert raw[k] == name;
    }
  }

  /** The lamport comparison is quiet exactly when no name is added. */
  lemma QuietNames(at: string, was: seq<string>, now: seq<string>)
    ensures Quiet(NameFindings(at, was, now)) <==> forall n :: n in now ==> n in was
  {
    var gain, loss := LamportGain(at, was), LamportLoss(at, now);
    QuietConcat(FlatMap(now, gain), FlatMap(was, loss));
    FlatMapQuiet(now, gain);
    FlatMapQuiet(was, loss);
    forall n ensures Quiet(gain(n)) <==> n in was {
      if n !in was { assert gain(n)[0] in gain(n) && Blocks(gain(n)[0]); }
    }
  }

  /** A name listed now is listed before, at a position of that name. */
  lemma ListedBefore(was: Instruction, now: Instruction, k: nat) returns (j: nat)
    requires forall n :: n in LamportNames(now) ==> n in LamportNames(was)
    requires k in now.lamportAccounts && k < |now.accounts| && LamportsInRange(was)
    ensures j in was.lamportAccounts && j < |was.accounts| && was.accounts[j].name == now.accounts[k].name
  {
    var name := now.accounts[k].name;
    assert LamportName(now, k) == name;
    LamportNamesMember(now, name);
    LamportNamesMember(was, name);
    j :| j in was.lamportAccounts && LamportName(was, j) == name;
  }

  lemma QuietLamportContract(at: string, u: Upgrade)
    requires Quiet(LamportContractFindings(at, u)) && u.was.mutationComplete
    ensures u.now.mutationComplete
    ensures forall n :: n in LamportNames(u.now) ==> n in LamportNames(u.was)
  {
    var fs := LamportContractFindings(at, u);
    if !u.now.mutationComplete { assert fs[0] in fs && Blocks(fs[0]); }
    QuietNames(at, LamportNames(u.was), LamportNames(u.now));
  }

  lemma LamportsSound(at: string, u: Upgrade)
    requires Quiet(InstructionFindings(at, u)) && WellFormed(u.was)
    ensures LamportsKept(u)
  {
    QuietInstruction(at, u);
    WritableSound(at, u);
    forall name | MayMoveLamports(u.now, name) ensures MayMoveLamports(u.was, name) {
      var k :| 0 <= k < |u.now.accounts| && u.now.accounts[k].name == name && u.now.accounts[k].writable
        && (u.now.mutationComplete ==> k in u.now.lamportAccounts);
      assert Writes(u.now, name);
      if u.was.mutationComplete {
        QuietLamportContract(at, u);
        var j := ListedBefore(u.was, u.now, k);
        UniquePosition(u.was.accounts, j);
        var w :| 0 <= w < |u.was.accounts| && u.was.accounts[w].name == name && u.was.accounts[w].writable;
        UniquePosition(u.was.accounts, w);
      }
    }
  }

  lemma CeilingSound(at: string, u: Upgrade)
    requires Quiet(InstructionFindings(at, u))
    ensures Ceiling(u.now) <= Ceiling(u.was)
  {
    QuietInstruction(at, u);
    var fs := RemainingFindings(at, u);
    assert fs != [] ==> fs[0] in fs;
  }

  /** No program is newly callable. */
  lemma ProgramsSound(at: string, u: Upgrade)
    requires Quiet(InstructionFindings(at, u))
    ensures ProgramsKept(u)
  {
    hide InstructionFindings, ContextFindings, AccountFindings, KeptAccountFindings, CellFindings, DataFindings,
      RoleFindings, Quiet, IsUncheckedKind;
    QuietInstruction(at, u);
    forall name | MayCall(u.now, NowContext(u), name)
      ensures FindAccount(u.was.accounts, name).Some?
      ensures var c := ContextAccountOf(WasContext(u), name);
        c.Some? ==> IsUncheckedKind(c.value.kind) || c.value.kind == ContextAccountOf(NowContext(u), name).value.kind
    {
      var a := u.now.accounts[FindAccount(u.now.accounts, name).value];
      assert a in u.now.accounts;
      QuietAccount(at, u, a);
      QuietKept(at, u, u.was.accounts[FindAccount(u.was.accounts, name).value], a);
      var c := ContextAccountOf(WasContext(u), name);
      if c.Some? { QuietKeeps(at, c.value, ContextAccountOf(NowContext(u), name).value); }
    }
  }

  // -------------------------------------------------------------------------
  // Constraints.
  // -------------------------------------------------------------------------

  /** No constraint set accepts everything: it allows at most one lifecycle action. */
  lemma RefusesSomething(c: ContextAccount)
    ensures exists p :: !Admits(c, p)
  {
    var p := Typical(c).(action := c.Lifecycle() + "existing!");
    assert |p.action| > |"existing"| && |p.action| > |c.Lifecycle()|;
    assert !AdmitsButPayer(c, p);
    assert !Admits(c, p);
  }

  /** Published constraints hold on exactly the accounts whose constraints are
      still published. */
  lemma ConstraintsSound(at: string, u: Upgrade, name: string)
    requires Quiet(InstructionFindings(at, u)) && Constrained(u, name)
    ensures ConstraintsKept(u, name) <==> StillPublished(u, name)
  {
    hide InstructionFindings, ContextFindings, AccountFindings, KeptAccountFindings, CellFindings, DataFindings,
      RoleFindings, Admits, Quiet;
    QuietInstruction(at, u);
    var c, d := ContextAccountOf(WasContext(u), name), ContextAccountOf(NowContext(u), name);
    if d.Some? {
      var a := u.now.accounts[FindAccount(u.now.accounts, name).value];
      assert a in u.now.accounts;
      QuietAccount(at, u, a);
      QuietKept(at, u, u.was.accounts[FindAccount(u.was.accounts, name).value], a);
      QuietContextSound(at, c.value, d.value);
    } else {
      RefusesSomething(c.value);
    }
  }

  /** An instruction whose context was found by structure always has all of its
      accounts in it, so only a declared binding can leave one out. */
  lemma StructuralContextListsAccounts(ix: Instruction, ctx: Context, a: Account)
    requires ContextMatches(ix, ctx) && a in ix.accounts
    ensures ContextAccountOf(Some(ctx), a.name).Some?
  {
    var k :| 0 <= k < |ix.accounts| && ix.accounts[k] == a;
    assert ctx.accounts[k] in ctx.accounts;
  }

  // -------------------------------------------------------------------------
  // The whole diff.
  // -------------------------------------------------------------------------

  /** Silence means that the new entry point grants nothing new, exactly when no
      later account of some name does. */
  lemma InstructionSound(at: string, u: Upgrade)
    requires Quiet(InstructionFindings(at, u)) && WellFormed(u.was)
    ensures GrantsNothingNew(u) <==> NamesakesKept(u)
  {
    hide InstructionFindings, MayWrite, FirstMayWrite, ByteKept, ProgramsKept, WritableKept, SignersKept, LamportsKept,
      ConstraintsKept, StillPublished;
    WritableSound(at, u);
    SignersSound(at, u);
    LamportsSound(at, u);
    CeilingSound(at, u);
    ProgramsSound(at, u);
    forall name, byte | FirstMayWrite(u.now, name, byte) ensures ByteKept(u, name, byte) {
      BytesSound(at, u, name, byte);
    }
    forall name | Constrained(u, name) ensures ConstraintsKept(u, name) <==> StillPublished(u, name) {
      ConstraintsSound(at, u, name);
    }
  }

  /** The published document is well formed wherever it dispatches. */
  ghost predicate WellFormedDoc(doc: Doc) {
    forall key :: key in Dispatch(doc.instructions) ==> WellFormed(Dispatch(doc.instructions)[key])
  }

  /** No entry point names two accounts alike. */
  ghost predicate UniqueAccountsDoc(doc: Doc) {
    forall key :: key in Dispatch(doc.instructions) ==> UniqueAccounts(Dispatch(doc.instructions)[key].accounts)
  }

  /** Neither a rename nor a removed entry point blocks; new ones and everything else may. */
  lemma QuietProgram(was: Doc, now: Doc)
    ensures Quiet(ProgramFindings(was, now))
       <==> && Quiet(FieldRules.RuleFindings(was, now))
            && forall key :: key in Dispatch(now.instructions) ==> Quiet(EntryFindings(was, now)(key))
  {
    var a, b := RenameFindings(was, now), FlatMap(OrderedKeys(now.instructions), EntryFindings(was, now));
    QuietConcat(a + b + FieldRules.RuleFindings(was, now),
                FlatMap(OrderedKeys(was.instructions), RemovedFindings(was, now)));
    QuietConcat(a + b, FieldRules.RuleFindings(was, now));
    QuietConcat(a, b);
    FlatMapQuiet(OrderedKeys(now.instructions), EntryFindings(was, now));
    FlatMapQuiet(OrderedKeys(was.instructions), RemovedFindings(was, now));
    hide EntryFindings, Dispatch, OrderedKeys, FlatMap, FieldRules.RuleFindings;
    forall key ensures key in OrderedKeys(now.instructions) <==> key in Dispatch(now.instructions) {
      OrderedKeysMember(now.instructions, key);
    }
  }

  /** Every entry point of the new program existed, and grants nothing new. */
  ghost predicate UpgradeGrantsNothingNew(was: Doc, now: Doc) {
    forall key :: key in Dispatch(now.instructions) ==>
      && key in Dispatch(was.instructions)
      && GrantsNothingNew(Upgrade(Dispatch(was.instructions)[key], Dispatch(now.instructions)[key], was, now))
  }

  /** No entry point grants a byte through a later account of some name. */
  ghost predicate UpgradeNamesakesKept(was: Doc, now: Doc) {
    forall key :: key in Dispatch(now.instructions) && key in Dispatch(was.instructions) ==>
      NamesakesKept(Upgrade(Dispatch(was.instructions)[key], Dispatch(now.instructions)[key], was, now))
  }

  lemma UniqueNamesakesDoc(was: Doc, now: Doc)
    requires UniqueAccountsDoc(now)
    ensures UpgradeNamesakesKept(was, now)
  {
    forall key | key in Dispatch(now.instructions) && key in Dispatch(was.instructions)
      ensures NamesakesKept(Upgrade(Dispatch(was.instructions)[key], Dispatch(now.instructions)[key], was, now))
    {
      UniqueNamesakes(Upgrade(Dispatch(was.instructions)[key], Dispatch(now.instructions)[key], was, now));
    }
  }

  /** Soundness of the whole diff, through the report, for every new document: a
      verdict of "not widened" means no new entry point, byte, account, lamport,
      signer, program or variadic right, exactly when no later account of some
      name brings one, and no newly admitted stored value. */
  lemma NotWidenedIsSound(was: Doc, now: Doc, say: Finding -> string, admits: FieldRules.Meaning)
    requires WellFormedDoc(was) && VerdictOn(say, was, now) == NotWidened
    requires FieldRules.Honest(admits, FieldRules.Entries(was)) && FieldRules.Honest(admits, FieldRules.Entries(now))
    ensures UpgradeGrantsNothingNew(was, now) <==> UpgradeNamesakesKept(was, now)
    ensures UniqueAccountsDoc(now) ==> UpgradeGrantsNothingNew(was, now)
    ensures forall key, v :: FieldRules.AllAdmit(admits, FieldRules.RulesOn(FieldRules.Entries(now), key), v) ==>
      FieldRules.AllAdmit(admits, FieldRules.RulesOn(FieldRules.Entries(was), key), v)
  {
    hide ProgramFindings, VerdictOn, Quiet, GrantsNothingNew, NamesakesKept, FieldRules.AllAdmit, FieldRules.Honest;
    hide Dispatch, EntryFindings, FieldRules.RulesOn, FieldRules.Entries, FieldRules.RuleFindings, UniqueAccounts;
    SilentProgram(say, was, now);
    forall key | key in Dispatch(now.instructions)
      ensures key in Dispatch(was.instructions)
      ensures var u := Upgrade(Dispatch(was.instructions)[key], Dispatch(now.instructions)[key], was, now);
        GrantsNothingNew(u) <==> NamesakesKept(u)
    {
      EntrySound(was, now, key);
    }
    if UniqueAccountsDoc(now) { UniqueNamesakesDoc(was, now); }
    forall key, v | FieldRules.AllAdmit(admits, FieldRules.RulesOn(FieldRules.Entries(now), key), v)
      ensures FieldRules.AllAdmit(admits, FieldRules.RulesOn(FieldRules.Entries(was), key), v)
    {
      FieldRules.RulesQuietSound(admits, was, now, key, v);
    }
  }

  lemma SilentProgram(say: Finding -> string, was: Doc, now: Doc)
    requires VerdictOn(say, was, now) == NotWidened
    ensures Quiet(FieldRules.RuleFindings(was, now))
    ensures forall key :: key in Dispatch(now.instructions) ==> Quiet(EntryFindings(was, now)(key))
  {
    VerdictExact(say, ProgramFindings(was, now));
    QuietProgram(was, now);
  }

  lemma EntrySound(was: Doc, now: Doc, key: seq<nat>)
    requires WellFormedDoc(was) && key in Dispatch(now.instructions) && Quiet(EntryFindings(was, now)(key))
    ensures key in Dispatch(was.instructions)
    ensures var u := Upgrade(Dispatch(was.instructions)[key], Dispatch(now.instructions)[key], was, now);
      GrantsNothingNew(u) <==> NamesakesKept(u)
  {
    hide GrantsNothingNew, NamesakesKept, InstructionFindings;
    var fs := EntryFindings(was, now)(key);
    assert key !in Dispatch(was.instructions) ==> |fs| == 1 && Blocks(fs[0]);
    assert fs != [] ==> fs[0] in fs;
    var ix := Dispatch(now.instructions)[key];
    InstructionSound(ix.name, Upgrade(Dispatch(was.instructions)[key], ix, was, now));
  }
}
