/** What each change draws: the findings of one entry point, said of the change
    itself and of the positions of what changed. */
module Reported {
  import opened Orders
  import opened Manifest
  import opened Findings
  import opened Constraints
  import opened Authority

  // -------------------------------------------------------------------------
  // From a part to the whole.
  // -------------------------------------------------------------------------

  lemma InInstruction(at: string, u: Upgrade, a: Account, f: Finding)
    ensures f in HeaderFindings(at, u) ==> f in InstructionFindings(at, u)
    ensures a in u.now.accounts && f in AccountFindings(at, u)(a) ==> f in InstructionFindings(at, u)
    ensures a in u.was.accounts && f in GoneFindings(at, u)(a) ==> f in InstructionFindings(at, u)
  {
    hide HeaderFindings, AccountFindings, GoneFindings;
    FlatMapMember(u.now.accounts, AccountFindings(at, u), f);
    FlatMapMember(u.was.accounts, GoneFindings(at, u), f);
  }

  lemma KeptReported(at: string, u: Upgrade, k: nat, a: Account, f: Finding)
    requires FindAccount(u.was.accounts, a.name) == Some(k) && a in u.now.accounts
    requires f in KeptAccountFindings(at, u, u.was.accounts[k], a)
    ensures f in InstructionFindings(at, u)
  {
    hide InstructionFindings, KeptAccountFindings;
    assert f in AccountFindings(at, u)(a);
    InInstruction(at, u, a, f);
  }

  // -------------------------------------------------------------------------
  // The header.
  // -------------------------------------------------------------------------

  predicate Pushes(at: string, u: Upgrade, impact: Impact, code: Code, detail: Detail) {
    Finding(impact, at, None, code, detail) in HeaderFindings(at, u)
  }

  /** Names, strictness, the lamport contract and the variadic ceiling. */
  lemma HeaderDraws(at: string, u: Upgrade)
    ensures u.was.name != u.now.name ==>
      Pushes(at, u, Info, InstructionRenamed, Change([u.was.name], [u.now.name]))
    ensures u.was.strictWrites && !u.now.strictWrites ==> Pushes(at, u, Widened, StrictWritesRemoved, Plain)
    ensures !u.was.strictWrites && u.now.strictWrites ==> Pushes(at, u, Narrowed, StrictWritesAdded, Plain)
    ensures u.was.mutationComplete && !u.now.mutationComplete ==>
      Pushes(at, u, Widened, LamportContractRemoved, Plain)
    ensures !u.was.mutationComplete && u.now.mutationComplete ==>
      Pushes(at, u, Narrowed, LamportContractAdded, Plain)
  {
    hide LamportFindings, RemainingFindings, UnavailableFindings;
    var flags, lamports := FlagFindings(at, u), LamportContractFindings(at, u);
    assert forall f :: f in flags || f in lamports ==> f in HeaderFindings(at, u);
    FlagsDraw(at, u);
    ContractDraws(at, u);
  }

  lemma FlagsDraw(at: string, u: Upgrade)
    ensures u.was.name != u.now.name ==>
      Finding(Info, at, None, InstructionRenamed, Change([u.was.name], [u.now.name])) in FlagFindings(at, u)
    ensures u.was.strictWrites && !u.now.strictWrites ==>
      Finding(Widened, at, None, StrictWritesRemoved, Plain) in FlagFindings(at, u)
    ensures !u.was.strictWrites && u.now.strictWrites ==>
      Finding(Narrowed, at, None, StrictWritesAdded, Plain) in FlagFindings(at, u)
  {
    var fs := FlagFindings(at, u);
    assert fs != [] ==> fs[0] in fs && fs[|fs| - 1] in fs;
  }

  lemma ContractDraws(at: string, u: Upgrade)
    ensures u.was.mutationComplete && !u.now.mutationComplete ==>
      Finding(Widened, at, None, LamportContractRemoved, Plain) in LamportContractFindings(at, u)
    ensures !u.was.mutationComplete && u.now.mutationComplete ==>
      Finding(Narrowed, at, None, LamportContractAdded, Plain) in LamportContractFindings(at, u)
  {
    var fs := LamportContractFindings(at, u);
    assert fs != [] ==> fs[0] in fs;
  }

  /** The number of variadic accounts, and context constraints published no longer. */
  lemma CeilingDraws(at: string, u: Upgrade)
    ensures match (u.was.remainingMax, u.now.remainingMax)
      case (None, Some(m)) => Pushes(at, u, Widened, RemainingAccountsAdded, Numbers([m]))
      case (Some(m), None) => Pushes(at, u, Narrowed, RemainingAccountsRemoved, Numbers([m]))
      case (Some(m), Some(n)) =>
        && (n > m ==> Pushes(at, u, Widened, RemainingAccountsRaised, Numbers([m, n])))
        && (n < m ==> Pushes(at, u, Narrowed, RemainingAccountsLowered, Numbers([m, n])))
      case (None, None) => true
    ensures WasContext(u).Some? && NowContext(u).None? ==>
      Pushes(at, u, Review, ContextConstraintsUnavailable, Plain)
  {
    hide FlagFindings, LamportContractFindings, WasContext, NowContext;
    var max, lost := RemainingFindings(at, u), UnavailableFindings(at, u);
    assert forall f :: f in max || f in lost ==> f in HeaderFindings(at, u);
    assert (max != [] ==> max[0] in max) && (lost != [] ==> lost[0] in lost);
  }

  // -------------------------------------------------------------------------
  // Accounts.
  // -------------------------------------------------------------------------

  predicate Draws(fs: seq<Finding>, at: string, name: string, impact: Impact, code: Code) {
    exists f :: f in fs && f.impact == impact && f.instruction == at && f.account == Some(name) && f.code == code
  }

  /** An account that is no longer listed, and one that was not listed before. */
  lemma ListingDraws(at: string, u: Upgrade, a: Account)
    ensures a in u.was.accounts && FindAccount(u.now.accounts, a.name).None? ==>
      if a.signer then Draws(InstructionFindings(at, u), at, a.name, Widened, SignerAccountRemoved)
      else Draws(InstructionFindings(at, u), at, a.name, Narrowed, AccountRemoved)
    ensures a in u.now.accounts && FindAccount(u.was.accounts, a.name).None? ==>
      var c := ContextAccountOf(NowContext(u), a.name);
      if c.Some? && IsProgramKind(c.value.kind)
      then Draws(InstructionFindings(at, u), at, a.name, Widened, CpiProgramAdded)
      else if a.writable then Draws(InstructionFindings(at, u), at, a.name, Widened, WritableAccountAdded)
      else if a.signer then Draws(InstructionFindings(at, u), at, a.name, Narrowed, SignerAccountAdded)
      else Draws(InstructionFindings(at, u), at, a.name, Info, ReadonlyAccountAdded)
  {
    hide InstructionFindings, ContextAccountOf, AuthorityOf;
    var gone, added := GoneFindings(at, u)(a), NewAccountFindings(at, u, a);
    if a in u.was.accounts && FindAccount(u.now.accounts, a.name).None? {
      assert gone[0] in gone;
      InInstruction(at, u, a, gone[0]);
    }
    if a in u.now.accounts && FindAccount(u.was.accounts, a.name).None? {
      assert AccountFindings(at, u)(a) == added && added[0] in added;
      InInstruction(at, u, a, added[0]);
    }
  }

  /** The roles of an account that is listed on both sides. */
  lemma RolesDraw(at: string, was: Account, now: Account)
    ensures was.signer && !now.signer ==> Draws(RoleFindings(at, was, now), at, now.name, Widened, SignerDropped)
    ensures !was.signer && now.signer ==> Draws(RoleFindings(at, was, now), at, now.name, Narrowed, SignerRequired)
    ensures !was.writable && now.writable ==> Draws(RoleFindings(at, was, now), at, now.name, Widened, BecameWritable)
    ensures was.writable && !now.writable ==> Draws(RoleFindings(at, was, now), at, now.name, Narrowed, BecameReadonly)
  {
    var fs := RoleFindings(at, was, now);
    assert fs != [] ==> fs[0] in fs && fs[|fs| - 1] in fs;
  }

  // -------------------------------------------------------------------------
  // Context constraints.
  // -------------------------------------------------------------------------

  predicate Says(fs: seq<Finding>, at: string, name: string, impact: Impact, code: Code, detail: Detail) {
    Finding(impact, at, Some(name), code, detail) in fs
  }

  lemma SeedsDraw(at: string, c: ContextAccount, d: ContextAccount)
    ensures var fs := ContextFindings(at, c, d);
      && (c.seeds != [] && d.seeds == [] ==> Says(fs, at, d.name, Widened, PdaBindingRemoved, Change(c.seeds, [])))
      && (c.seeds == [] && d.seeds != [] ==> Says(fs, at, d.name, Narrowed, PdaBindingAdded, Change([], d.seeds)))
      && (c.seeds != [] && d.seeds != [] && c.seeds != d.seeds ==>
            Says(fs, at, d.name, Review, PdaSeedsChanged, Change(c.seeds, d.seeds)))
  {
    var fs := SeedFindings(at, c, d);
    assert fs != [] ==> fs[0] in fs;
    hide SeedFindings, RelationFindings, AddressFindings, OwnerFindings, PolicyFindings, KindFindings, UseFindings;
  }

  lemma RelationsDraw(at: string, c: ContextAccount, d: ContextAccount, r: string)
    ensures r in c.hasOne && r !in d.hasOne ==>
      Says(ContextFindings(at, c, d), at, d.name, Widened, HasOneRemoved, Change([r], []))
    ensures r !in c.hasOne && r in d.hasOne ==>
      Says(ContextFindings(at, c, d), at, d.name, Narrowed, HasOneAdded, Change([], [r]))
  {
    var dropped, added := RelationDropped(at, d.name, d.hasOne), RelationAdded(at, d.name, c.hasOne);
    var lost := Finding(Widened, at, Some(d.name), HasOneRemoved, Change([r], []));
    var gained := Finding(Narrowed, at, Some(d.name), HasOneAdded, Change([], [r]));
    FlatMapMember(c.hasOne, dropped, lost);
    FlatMapMember(d.hasOne, added, gained);
    if r in c.hasOne && r !in d.hasOne { assert lost in dropped(r); }
    if r !in c.hasOne && r in d.hasOne { assert gained in added(r); }
    hide SeedFindings, AddressFindings, OwnerFindings, PolicyFindings, KindFindings, UseFindings, FlatMap;
  }

  /** The three codes of a binding: taken away, put in place of another, added. */
  predicate BindingDraws(fs: seq<Finding>, at: string, name: string, was: Option<string>, now: Option<string>,
                         removed: Code, changed: Code, added: Code)
  {
    match (was, now)
    case (Some(a), None) => Says(fs, at, name, Widened, removed, Change([a], []))
    case (Some(a), Some(b)) => a != b ==> Says(fs, at, name, Review, changed, Change([a], [b]))
    case (None, Some(b)) => Says(fs, at, name, Narrowed, added, Change([], [b]))
    case (None, None) => true
  }

  predicate StartsWith(s: string, front: string) { |s| >= |front| && s[..|front|] == front }

  /** Expected address, owner and policy; an address of a program is its identity. */
  lemma BindingsDraw(at: string, c: ContextAccount, d: ContextAccount)
    ensures var fs := ContextFindings(at, c, d);
      && (if StartsWith(c.kind, "Program") || StartsWith(d.kind, "Program")
          then BindingDraws(fs, at, d.name, c.expectedAddress, d.expectedAddress,
                            ProgramBindingRemoved, CpiProgramChanged, ProgramBindingAdded)
          else BindingDraws(fs, at, d.name, c.expectedAddress, d.expectedAddress,
                            AddressBindingRemoved, AddressBindingChanged, AddressBindingAdded))
      && BindingDraws(fs, at, d.name, c.expectedOwner, d.expectedOwner,
                      OwnerCheckRemoved, OwnerChanged, OwnerCheckAdded)
      && BindingDraws(fs, at, d.name, c.policyRef, d.policyRef, PolicyRemoved, PolicyChanged, PolicyAdded)
  {
    BindingSays(at, d.name, AddressCodes(c, d), c.expectedAddress, d.expectedAddress);
    BindingSays(at, d.name, OWNER_CODES, c.expectedOwner, d.expectedOwner);
    BindingSays(at, d.name, POLICY_CODES, c.policyRef, d.policyRef);
    var a, b, p := AddressFindings(at, c, d), OwnerFindings(at, c, d), PolicyFindings(at, c, d);
    hide SeedFindings, RelationFindings, KindFindings, UseFindings, BindingFindings, BindingDraws;
    var fs := ContextFindings(at, c, d);
    assert forall f :: f in a || f in b || f in p ==> f in fs;
    BindingWithin(a, fs, at, d.name, AddressCodes(c, d), c.expectedAddress, d.expectedAddress);
    BindingWithin(b, fs, at, d.name, OWNER_CODES, c.expectedOwner, d.expectedOwner);
    BindingWithin(p, fs, at, d.name, POLICY_CODES, c.policyRef, d.policyRef);
  }

  lemma BindingSays(at: string, name: string, codes: BindingCodes, was: Option<string>, now: Option<string>)
    ensures BindingDraws(BindingFindings(at, name, codes, was, now), at, name, was, now,
                         codes.removed, codes.changed, codes.added)
  {
    var fs := BindingFindings(at, name, codes, was, now);
    assert fs != [] ==> fs[0] in fs;
  }

  lemma BindingWithin(part: seq<Finding>, fs: seq<Finding>, at: string, name: string, codes: BindingCodes,
                      was: Option<string>, now: Option<string>)
    requires forall f :: f in part ==> f in fs
    requires BindingDraws(part, at, name, was, now, codes.removed, codes.changed, codes.added)
    ensures BindingDraws(fs, at, name, was, now, codes.removed, codes.changed, codes.added)
  {}

  /** The text occurs somewhere. */
  lemma {:induction false} ContainsAt(s: string, t: string)
    ensures ContainsText(s, t) <==> exists k :: 0 <= k <= |s| && t <= s[k..]
  {
    assert s[0..] == s;
    if s != "" {
      ContainsAt(s[1..], t);
      assert forall k :: 1 <= k <= |s| ==> s[k..] == s[1..][k - 1..];
      if k :| 0 <= k <= |s| - 1 && t <= s[1..][k..] { assert t <= s[k + 1..]; }
    }
  }

  ghost predicate Unchecked(kind: string) {
    (exists k :: 0 <= k <= |kind| && "Unchecked" <= kind[k..]) || kind in {"AccountView", "AccountInfo"}
  }

  lemma UncheckedExact(kind: string)
    ensures IsUncheckedKind(kind) <==> Unchecked(kind)
  {
    ContainsAt(kind, "Unchecked");
    hide ContainsText;
  }

  lemma KindDraws(at: string, c: ContextAccount, d: ContextAccount)
    requires c.kind != d.kind
    ensures var fs, detail := ContextFindings(at, c, d), Change([c.kind], [d.kind]);
      if Unchecked(d.kind) && !Unchecked(c.kind) then Says(fs, at, d.name, Widened, TypeCheckRemoved, detail)
      else if Unchecked(c.kind) && !Unchecked(d.kind) then Says(fs, at, d.name, Narrowed, TypeCheckAdded, detail)
      else Says(fs, at, d.name, Review, AccountKindChanged, detail)
  {
    UncheckedExact(c.kind);
    UncheckedExact(d.kind);
    hide IsUncheckedKind, Unchecked;
    var fs := KindFindings(at, c, d);
    assert fs[0] in fs;
    hide SeedFindings, RelationFindings, AddressFindings, OwnerFindings, PolicyFindings, UseFindings;
  }

  /** Whether an account may be left out, what is done with it, who pays; an
      undeclared lifecycle is that of an existing account. */
  lemma UseDraws(at: string, c: ContextAccount, d: ContextAccount)
    ensures var fs := ContextFindings(at, c, d);
      && (!c.optional && d.optional ==> Says(fs, at, d.name, Widened, BecameOptional, Plain))
      && (c.optional && !d.optional ==> Says(fs, at, d.name, Narrowed, BecameRequired, Plain))
      && (c.payer.Some? && d.payer.Some? && c.payer != d.payer ==>
            Says(fs, at, d.name, Review, PayerChanged, Change([c.payer.value], [d.payer.value])))
    ensures var fs := ContextFindings(at, c, d);
      var before := if c.lifecycle == None then "existing" else c.lifecycle.value;
      var after := if d.lifecycle == None then "existing" else d.lifecycle.value;
      before != after ==>
        Says(fs, at, d.name, if before == "existing" then Widened else if after == "existing" then Narrowed else Review,
             LifecycleChanged, Change([before], [after]))
  {
    var a, b, p := OptionalFindings(at, c, d), LifecycleFindings(at, c, d), PayerFindings(at, c, d);
    assert (a != [] ==> a[0] in a) && (b != [] ==> b[0] in b) && (p != [] ==> p[0] in p);
    hide SeedFindings, RelationFindings, AddressFindings, OwnerFindings, PolicyFindings, KindFindings;
    var fs := ContextFindings(at, c, d);
    assert forall f :: f in a || f in b || f in p ==> f in fs;
  }

  // -------------------------------------------------------------------------
  // From the contexts by position.
  // -------------------------------------------------------------------------

  /** The context at position `k` is the one of the instruction: the first that
      declares it, else the first structural match of its name, else the only
      structural match. */
  ghost predicate Chosen(ix: Instruction, contexts: seq<Context>, k: nat) {
    || IsFirst(contexts, Declares(ix.name), k)
    || (Nowhere(contexts, Declares(ix.name)) && IsFirst(contexts, NamedMatch(ix), k))
    || (Nowhere(contexts, Declares(ix.name)) && Nowhere(contexts, NamedMatch(ix)) && IsOnly(contexts, Matches(ix), k))
  }

  lemma ChosenMatches(ix: Instruction, contexts: seq<Context>, k: nat)
    requires Chosen(ix, contexts, k)
    ensures k < |contexts| && MatchingContext(ix, contexts) == Some(contexts[k])
  {
    ContextChosen(ix, contexts);
    hide MatchingContext;
  }

  /** Whatever changed between the constraints of an account in the contexts so
      chosen, its finding is among those of the instruction. */
  lemma ContextChangeReported(at: string, u: Upgrade, i: nat, j: nat, a: Account, m: nat, n: nat, f: Finding)
    requires Chosen(u.was, u.wasDoc.contexts, i) && Chosen(u.now, u.nowDoc.contexts, j)
    requires a in u.now.accounts && exists b :: b in u.was.accounts && b.name == a.name
    requires i < |u.wasDoc.contexts| && IsFirst(u.wasDoc.contexts[i].accounts, ContextNamed(a.name), m)
    requires j < |u.nowDoc.contexts| && IsFirst(u.nowDoc.contexts[j].accounts, ContextNamed(a.name), n)
    requires f in ContextFindings(at, u.wasDoc.contexts[i].accounts[m], u.nowDoc.contexts[j].accounts[n])
    ensures f in InstructionFindings(at, u)
  {
    hide InstructionFindings, ContextFindings, RoleFindings, DataFindings, CellFindings;
    ChosenMatches(u.was, u.wasDoc.contexts, i);
    ChosenMatches(u.now, u.nowDoc.contexts, j);
    FindContextAccountFirst(u.wasDoc.contexts[i].accounts, a.name);
    FindContextAccountFirst(u.nowDoc.contexts[j].accounts, a.name);
    var k := FindAccount(u.was.accounts, a.name).value;
    assert f in SharedContextFindings(at, u, a.name);
    KeptReported(at, u, k, a, f);
  }

  /** A `has_one` dropped in the chosen context of a kept account widens. */
  lemma HasOneDropped(at: string, u: Upgrade, i: nat, j: nat, a: Account, m: nat, n: nat, relation: string)
    requires Chosen(u.was, u.wasDoc.contexts, i) && Chosen(u.now, u.nowDoc.contexts, j)
    requires a in u.now.accounts && exists b :: b in u.was.accounts && b.name == a.name
    requires i < |u.wasDoc.contexts| && IsFirst(u.wasDoc.contexts[i].accounts, ContextNamed(a.name), m)
    requires j < |u.nowDoc.contexts| && IsFirst(u.nowDoc.contexts[j].accounts, ContextNamed(a.name), n)
    requires relation in u.wasDoc.contexts[i].accounts[m].hasOne
    requires relation !in u.nowDoc.contexts[j].accounts[n].hasOne
    ensures Finding(Widened, at, Some(a.name), HasOneRemoved, Change([relation], [])) in InstructionFindings(at, u)
  {
    hide InstructionFindings, ContextFindings;
    RelationsDraw(at, u.wasDoc.contexts[i].accounts[m], u.nowDoc.contexts[j].accounts[n], relation);
    var f := Finding(Widened, at, Some(a.name), HasOneRemoved, Change([relation], []));
    ContextChangeReported(at, u, i, j, a, m, n, f);
  }

  // -------------------------------------------------------------------------
  // Two handlers over the same accounts.
  // -------------------------------------------------------------------------

  const ADMIN := ContextAccount("admin", "Signer", false, true, None, None, [], false, None, None, [], None, None)
  const CONFIG := ContextAccount(
    "config", "Config", true, false, None, None, [], false, None, None, ["admin"], None, None)
  const PAUSE := Instruction(
    "pause", 1, [], [Account("admin", false, true, None), Account("config", true, false, None)],
    None, true, true, [], [], [])

  function PauseContexts(config: ContextAccount): seq<Context> {
    [Context("Pause", [], [ADMIN, config]), Context("Unpause", [], [ADMIN, CONFIG])]
  }

  lemma PauseIsNamed()
    ensures CanonicalIdentifier("Pause") == CanonicalIdentifier("pause") == "pause"
  {
    var word, capital := "pause", "Pause";
    assert word[1..] == capital[1..] == "ause" && "ause"[1..] == "use" && "use"[1..] == "se" && "se"[1..] == "e";
    assert "e"[1..] == "";
  }

  lemma PauseIsChosen(config: ContextAccount)
    requires config.name == "config" && config.writable && !config.signer && config.layoutRef == None
    ensures Chosen(PAUSE, PauseContexts(config), 0)
  {
    PauseIsNamed();
    hide CanonicalIdentifier;
    var contexts := PauseContexts(config);
    assert NamedMatch(PAUSE)(contexts[0]);
  }

  /** The context of the handler's own name is compared, although the other one
      matches as well: its dropped `has_one` is reported. */
  lemma PauseDropsHasOne(at: string, u: Upgrade)
    requires u.was == u.now == PAUSE && u.wasDoc.contexts == PauseContexts(CONFIG)
    requires u.nowDoc.contexts == PauseContexts(CONFIG.(hasOne := []))
    ensures Finding(Widened, at, Some("config"), HasOneRemoved, Change(["admin"], [])) in InstructionFindings(at, u)
  {
    hide InstructionFindings, Chosen;
    PauseIsChosen(CONFIG);
    PauseIsChosen(CONFIG.(hasOne := []));
    var a := PAUSE.accounts[1];
    assert a in u.now.accounts && a in u.was.accounts && a.name == "config";
    HasOneDropped(at, u, 0, 0, a, 1, 1, "admin");
  }
}
