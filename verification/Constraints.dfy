/** Per-account context constraints: which context belongs to an instruction,
    and how two versions of one constraint set compare. */
module Constraints {
  import opened Orders
  import opened Manifest
  import opened Findings

  // -------------------------------------------------------------------------
  // Matching an instruction to its context.
  // -------------------------------------------------------------------------

  predicate IsAsciiAlphanumeric(c: char) {
    '0' <= c <= '9' || 'A' <= c <= 'Z' || 'a' <= c <= 'z'
  }

  function AsciiLower(c: char): char {
    if 'A' <= c <= 'Z' then ((c as int) + 32) as char else c
  }

  function CanonicalIdentifier(value: string): string {
    if value == "" then ""
    else (if IsAsciiAlphanumeric(value[0]) then [AsciiLower(value[0])] else []) + CanonicalIdentifier(value[1..])
  }

  /** Account by account: same name and roles, and no two different layouts. */
  predicate ContextMatches(ix: Instruction, ctx: Context) {
    && |ctx.accounts| == |ix.accounts|
    && forall k :: 0 <= k < |ix.accounts| ==>
         var a, c := ix.accounts[k], ctx.accounts[k];
         && a.name == c.name
         && a.writable == c.writable
         && a.signer == c.signer
         && (a.layoutRef.Some? && c.layoutRef.Some? ==> a.layoutRef == c.layoutRef)
  }

  function FirstDeclared(contexts: seq<Context>, handler: string): Option<Context> {
    if contexts == [] then None
    else if handler in contexts[0].instructions then Some(contexts[0])
    else FirstDeclared(contexts[1..], handler)
  }

  function StructuralMatches(ix: Instruction, contexts: seq<Context>): (r: seq<Context>)
    ensures forall c :: c in r <==> c in contexts && ContextMatches(ix, c)
  {
    if contexts == [] then []
    else
      assert contexts == [contexts[0]] + contexts[1..];
      (if ContextMatches(ix, contexts[0]) then [contexts[0]] else []) + StructuralMatches(ix, contexts[1..])
  }

  function FirstNamed(contexts: seq<Context>, wanted: string): (r: Option<Context>)
    ensures r.Some? ==> r.value in contexts
  {
    if contexts == [] then None
    else if CanonicalIdentifier(contexts[0].name) == wanted then Some(contexts[0])
    else FirstNamed(contexts[1..], wanted)
  }

  /** A declared binding wins, then a structural match of the same name, then
      the only structural match. */
  function MatchingContext(ix: Instruction, contexts: seq<Context>): Option<Context> {
    match FirstDeclared(contexts, ix.name)
    case Some(c) => Some(c)
    case None =>
      var candidates := StructuralMatches(ix, contexts);
      match FirstNamed(candidates, CanonicalIdentifier(ix.name))
      case Some(c) => Some(c)
      case None => if |candidates| == 1 then Some(candidates[0]) else None
  }

  // -------------------------------------------------------------------------
  // The choice, said by positions.
  // -------------------------------------------------------------------------

  function Declares(handler: string): Context -> bool { (c: Context) => handler in c.instructions }

  function Matches(ix: Instruction): Context -> bool { (c: Context) => ContextMatches(ix, c) }

  /** Alike once punctuation and case are dropped. */
  predicate SameIdentifier(a: string, b: string) { CanonicalIdentifier(a) == CanonicalIdentifier(b) }

  function NamedMatch(ix: Instruction): Context -> bool {
    (c: Context) => ContextMatches(ix, c) && SameIdentifier(c.name, ix.name)
  }

  lemma {:induction false} FirstDeclaredAt(contexts: seq<Context>, handler: string)
    ensures forall k: nat :: IsFirst(contexts, Declares(handler), k) ==>
      FirstDeclared(contexts, handler) == Some(contexts[k])
    ensures Nowhere(contexts, Declares(handler)) ==> FirstDeclared(contexts, handler) == None
  {
    if contexts != [] && handler !in contexts[0].instructions {
      FirstDeclaredAt(contexts[1..], handler);
      forall k: nat ensures IsFirst(contexts, Declares(handler), k) ==>
        FirstDeclared(contexts, handler) == Some(contexts[k])
      {
        FirstLater(contexts, Declares(handler), k);
      }
    }
  }

  lemma {:induction false} FirstNamedAt(ix: Instruction, contexts: seq<Context>)
    ensures var found := FirstNamed(StructuralMatches(ix, contexts), CanonicalIdentifier(ix.name));
      && (forall k: nat :: IsFirst(contexts, NamedMatch(ix), k) ==> found == Some(contexts[k]))
      && (Nowhere(contexts, NamedMatch(ix)) ==> found == None)
  {
    if contexts != [] {
      FirstNamedAt(ix, contexts[1..]);
      var matches, rest := StructuralMatches(ix, contexts), StructuralMatches(ix, contexts[1..]);
      assert ContextMatches(ix, contexts[0]) ==> matches[0] == contexts[0] && matches[1..] == rest;
      assert !ContextMatches(ix, contexts[0]) ==> matches == rest;
      if !NamedMatch(ix)(contexts[0]) {
        hide ContextMatches, StructuralMatches;
        forall k: nat
          ensures k > 0 ==> (IsFirst(contexts, NamedMatch(ix), k) <==> IsFirst(contexts[1..], NamedMatch(ix), k - 1))
          ensures !IsFirst(contexts, NamedMatch(ix), 0)
          ensures Nowhere(contexts, NamedMatch(ix)) <==> Nowhere(contexts[1..], NamedMatch(ix))
        {
          FirstLater(contexts, NamedMatch(ix), k);
        }
      }
    }
  }

  lemma {:induction false} OnlyMatchAt(ix: Instruction, contexts: seq<Context>)
    ensures StructuralMatches(ix, contexts) == [] <==> Nowhere(contexts, Matches(ix))
    ensures forall k: nat :: IsOnly(contexts, Matches(ix), k) ==> StructuralMatches(ix, contexts) == [contexts[k]]
    ensures (forall k: nat :: !IsOnly(contexts, Matches(ix), k)) ==> |StructuralMatches(ix, contexts)| != 1
  {
    if contexts != [] {
      OnlyMatchAt(ix, contexts[1..]);
      hide ContextMatches;
      if Matches(ix)(contexts[0]) {
        assert forall j :: 1 <= j < |contexts| ==> contexts[j] == contexts[1..][j - 1];
        assert Nowhere(contexts[1..], Matches(ix)) <==> IsOnly(contexts, Matches(ix), 0);
      } else {
        forall k: nat
          ensures k > 0 ==> (IsOnly(contexts, Matches(ix), k) <==> IsOnly(contexts[1..], Matches(ix), k - 1))
          ensures !IsOnly(contexts, Matches(ix), 0)
          ensures Nowhere(contexts, Matches(ix)) <==> Nowhere(contexts[1..], Matches(ix))
        {
          FirstLater(contexts, Matches(ix), k);
        }
        forall k: nat | IsOnly(contexts[1..], Matches(ix), k) ensures IsOnly(contexts, Matches(ix), k + 1) {}
      }
    }
  }

  /** The first context that declares the instruction; failing that the first
      structural match of its name; failing that the only structural match. */
  lemma ContextChosen(ix: Instruction, contexts: seq<Context>)
    ensures forall k: nat :: IsFirst(contexts, Declares(ix.name), k) ==>
      MatchingContext(ix, contexts) == Some(contexts[k])
    ensures Nowhere(contexts, Declares(ix.name)) ==> forall k: nat :: IsFirst(contexts, NamedMatch(ix), k) ==>
      MatchingContext(ix, contexts) == Some(contexts[k])
    ensures Nowhere(contexts, Declares(ix.name)) && Nowhere(contexts, NamedMatch(ix)) ==>
      && (forall k: nat :: IsOnly(contexts, Matches(ix), k) ==> MatchingContext(ix, contexts) == Some(contexts[k]))
      && ((forall k: nat :: !IsOnly(contexts, Matches(ix), k)) ==> MatchingContext(ix, contexts) == None)
  {
    FirstDeclaredAt(contexts, ix.name);
    FirstNamedAt(ix, contexts);
    OnlyMatchAt(ix, contexts);
    hide FirstDeclared, FirstNamed, StructuralMatches, IsFirst, IsOnly, Nowhere;
  }

  datatype Role = Role(name: string, writable: bool, signer: bool)

  function InstructionRoles(ix: Instruction): seq<Role> {
    seq(|ix.accounts|, k requires 0 <= k < |ix.accounts| =>
      Role(ix.accounts[k].name, ix.accounts[k].writable, ix.accounts[k].signer))
  }

  function ContextRoles(ctx: Context): seq<Role> {
    seq(|ctx.accounts|, k requires 0 <= k < |ctx.accounts| =>
      Role(ctx.accounts[k].name, ctx.accounts[k].writable, ctx.accounts[k].signer))
  }

  predicate SameLayout(a: Option<string>, b: Option<string>) { a.None? || b.None? || a == b }

  /** A structural match lists the same roles in the same order, and no account
      has two different layouts. */
  lemma MatchesRoles(ix: Instruction, ctx: Context)
    ensures ContextMatches(ix, ctx)
       <==> && InstructionRoles(ix) == ContextRoles(ctx)
            && forall k :: 0 <= k < |ix.accounts| && k < |ctx.accounts| ==>
                 SameLayout(ix.accounts[k].layoutRef, ctx.accounts[k].layoutRef)
  {
    var a, b := InstructionRoles(ix), ContextRoles(ctx);
    if a == b {
      assert |ix.accounts| == |a| == |b| == |ctx.accounts|;
      forall k | 0 <= k < |a|
        ensures ix.accounts[k].name == ctx.accounts[k].name && ix.accounts[k].writable == ctx.accounts[k].writable
        ensures ix.accounts[k].signer == ctx.accounts[k].signer
      {
        assert a[k] == b[k];
      }
    }
  }

  /** Of an identifier, letters and digits are kept in their order, in lower case. */
  lemma CanonicalOne(c: char)
    ensures CanonicalIdentifier([c])
         == if c in "0123456789abcdefghijklmnopqrstuvwxyz" then [c]
            else if c in "ABCDEFGHIJKLMNOPQRSTUVWXYZ" then [((c as int) - 'A' as int + 'a' as int) as char]
            else ""
  {
    assert [c][1..] == "";
    AmongDigits(c);
    AmongSmall(c);
    AmongCapitals(c);
  }

  lemma AmongDigits(c: char)
    ensures c in "0123456789" <==> '0' <= c <= '9'
  {
    RunOf("0123456789", '0', c);
  }

  lemma AmongSmall(c: char)
    ensures c in "0123456789abcdefghijklmnopqrstuvwxyz" <==> '0' <= c <= '9' || 'a' <= c <= 'z'
  {
    AmongDigits(c);
    RunOf("abcdefghijklmnopqrstuvwxyz", 'a', c);
    assert "0123456789abcdefghijklmnopqrstuvwxyz" == "0123456789" + "abcdefghijklmnopqrstuvwxyz";
  }

  lemma AmongCapitals(c: char)
    ensures c in "ABCDEFGHIJKLMNOPQRSTUVWXYZ" <==> 'A' <= c <= 'Z'
  {
    RunOf("ABCDEFGHIJKLMNOPQRSTUVWXYZ", 'A', c);
  }

  /** Characters one after the other. */
  lemma RunOf(s: string, first: char, c: char)
    requires s != "" && forall k :: 0 <= k < |s| ==> s[k] as int == first as int + k
    ensures c in s <==> first as int <= c as int < first as int + |s|
  {
    if first as int <= c as int < first as int + |s| { assert s[c as int - first as int] == c; }
  }

  lemma {:induction false} CanonicalConcat(a: string, b: string)
    ensures CanonicalIdentifier(a + b) == CanonicalIdentifier(a) + CanonicalIdentifier(b)
  {
    hide IsAsciiAlphanumeric, AsciiLower;
    if a == "" {
      assert a + b == b;
    } else {
      assert (a + b)[0] == a[0] && (a + b)[1..] == a[1..] + b;
      CanonicalConcat(a[1..], b);
      var kept := if IsAsciiAlphanumeric(a[0]) then [AsciiLower(a[0])] else [];
      Assoc(kept, CanonicalIdentifier(a[1..]), CanonicalIdentifier(b));
    }
  }

  function ContextAccountOf(ctx: Option<Context>, name: string): Option<ContextAccount> {
    if ctx.Some? then FindContextAccount(ctx.value.accounts, name) else None
  }

  predicate ContainsText(s: string, t: string) {
    t <= s || (s != "" && ContainsText(s[1..], t))
  }

  predicate IsUncheckedKind(kind: string) {
    ContainsText(kind, "Unchecked") || kind == "AccountView" || kind == "AccountInfo"
  }

  predicate IsProgramKind(kind: string) {
    "Program" <= kind
  }

  // -------------------------------------------------------------------------
  // What the comparison of one account's constraints says.
  // -------------------------------------------------------------------------

  function One(at: string, account: string, impact: Impact, code: Code, detail: Detail): seq<Finding> {
    [Finding(impact, at, Some(account), code, detail)]
  }

  function SeedFindings(at: string, was: ContextAccount, now: ContextAccount): seq<Finding> {
    if was.seeds != [] && now.seeds == [] then
      One(at, now.name, Widened, PdaBindingRemoved, Change(was.seeds, []))
    else if was.seeds == [] && now.seeds != [] then
      One(at, now.name, Narrowed, PdaBindingAdded, Change([], now.seeds))
    else if was.seeds != now.seeds then
      One(at, now.name, Review, PdaSeedsChanged, Change(was.seeds, now.seeds))
    else []
  }

  function RelationDropped(at: string, account: string, kept: seq<string>): string -> seq<Finding> {
    (r: string) => if r in kept then [] else One(at, account, Widened, HasOneRemoved, Change([r], []))
  }

  function RelationAdded(at: string, account: string, had: seq<string>): string -> seq<Finding> {
    (r: string) => if r in had then [] else One(at, account, Narrowed, HasOneAdded, Change([], [r]))
  }

  function RelationFindings(at: string, was: ContextAccount, now: ContextAccount): seq<Finding> {
    FlatMap(was.hasOne, RelationDropped(at, now.name, now.hasOne))
    + FlatMap(now.hasOne, RelationAdded(at, now.name, was.hasOne))
  }

  datatype BindingCodes = BindingCodes(removed: Code, changed: Code, added: Code)

  function BindingFindings(at: string, account: string, codes: BindingCodes,
                           was: Option<string>, now: Option<string>): seq<Finding> {
    match (was, now)
    case (Some(a), None) => One(at, account, Widened, codes.removed, Change([a], []))
    case (Some(a), Some(b)) =>
      if a != b then One(at, account, Review, codes.changed, Change([a], [b])) else []
    case (None, Some(b)) => One(at, account, Narrowed, codes.added, Change([], [b]))
    case (None, None) => []
  }

  function AddressCodes(was: ContextAccount, now: ContextAccount): BindingCodes {
    if IsProgramKind(now.kind) || IsProgramKind(was.kind)
    then BindingCodes(ProgramBindingRemoved, CpiProgramChanged, ProgramBindingAdded)
    else BindingCodes(AddressBindingRemoved, AddressBindingChanged, AddressBindingAdded)
  }

  const OWNER_CODES := BindingCodes(OwnerCheckRemoved, OwnerChanged, OwnerCheckAdded)
  const POLICY_CODES := BindingCodes(PolicyRemoved, PolicyChanged, PolicyAdded)

  function KindFindings(at: string, was: ContextAccount, now: ContextAccount): seq<Finding> {
    var detail := Change([was.kind], [now.kind]);
    if was.kind == now.kind then []
    else if IsUncheckedKind(now.kind) && !IsUncheckedKind(was.kind) then
      One(at, now.name, Widened, TypeCheckRemoved, detail)
    else if IsUncheckedKind(was.kind) && !IsUncheckedKind(now.kind) then
      One(at, now.name, Narrowed, TypeCheckAdded, detail)
    else One(at, now.name, Review, AccountKindChanged, detail)
  }

  function OptionalFindings(at: string, was: ContextAccount, now: ContextAccount): seq<Finding> {
    if !was.optional && now.optional then One(at, now.name, Widened, BecameOptional, Plain)
    else if was.optional && !now.optional then One(at, now.name, Narrowed, BecameRequired, Plain)
    else []
  }

  function LifecycleFindings(at: string, was: ContextAccount, now: ContextAccount): seq<Finding> {
    var before, after := was.Lifecycle(), now.Lifecycle();
    if before == after then []
    else
      var impact := if before == "existing" then Widened else if after == "existing" then Narrowed else Review;
      One(at, now.name, impact, LifecycleChanged, Change([before], [after]))
  }

  function PayerFindings(at: string, was: ContextAccount, now: ContextAccount): seq<Finding> {
    if was.payer != now.payer && was.payer.Some? && now.payer.Some? then
      One(at, now.name, Review, PayerChanged, Change([was.payer.value], [now.payer.value]))
    else []
  }

  function AddressFindings(at: string, was: ContextAccount, now: ContextAccount): seq<Finding> {
    BindingFindings(at, now.name, AddressCodes(was, now), was.expectedAddress, now.expectedAddress)
  }

  function OwnerFindings(at: string, was: ContextAccount, now: ContextAccount): seq<Finding> {
    BindingFindings(at, now.name, OWNER_CODES, was.expectedOwner, now.expectedOwner)
  }

  function PolicyFindings(at: string, was: ContextAccount, now: ContextAccount): seq<Finding> {
    BindingFindings(at, now.name, POLICY_CODES, was.policyRef, now.policyRef)
  }

  /** Whether the account may be left out, what is done with it, who pays. */
  function UseFindings(at: string, was: ContextAccount, now: ContextAccount): seq<Finding> {
    OptionalFindings(at, was, now) + LifecycleFindings(at, was, now) + PayerFindings(at, was, now)
  }

  function ContextFindings(at: string, was: ContextAccount, now: ContextAccount): seq<Finding> {
    SeedFindings(at, was, now)
    + RelationFindings(at, was, now)
    + AddressFindings(at, was, now)
    + OwnerFindings(at, was, now)
    + PolicyFindings(at, was, now)
    + KindFindings(at, was, now)
    + UseFindings(at, was, now)
  }

  // -------------------------------------------------------------------------
  // The code.
  // -------------------------------------------------------------------------

  method DiffOptionalBinding(was: Option<string>, now: Option<string>, codes: BindingCodes,
                             account: string, sink: Sink)
    modifies sink.findings
    ensures sink.findings.items
         == old(sink.findings.items) + BindingFindings(sink.instruction, account, codes, was, now)
  {
    match (was, now) {
      case (Some(a), None) => sink.Push(Widened, Some(account), codes.removed, Change([a], []));
      case (Some(a), Some(b)) =>
        if a != b { sink.Push(Review, Some(account), codes.changed, Change([a], [b])); }
      case (None, Some(b)) => sink.Push(Narrowed, Some(account), codes.added, Change([], [b]));
      case (None, None) =>
    }
  }

  method DiffRelations(was: ContextAccount, now: ContextAccount, sink: Sink)
    modifies sink.findings
    ensures sink.findings.items == old(sink.findings.items) + RelationFindings(sink.instruction, was, now)
  {
    ghost var start := sink.findings.items;
    ghost var dropped := RelationDropped(sink.instruction, now.name, now.hasOne);
    for k := 0 to |was.hasOne|
      invariant sink.findings.items == start + FlatMap(was.hasOne[..k], dropped)
    {
      FlatMapNext(was.hasOne, dropped, k);
      Assoc(start, FlatMap(was.hasOne[..k], dropped), dropped(was.hasOne[k]));
      if was.hasOne[k] !in now.hasOne {
        sink.Push(Widened, Some(now.name), HasOneRemoved, Change([was.hasOne[k]], []));
      }
    }
    assert was.hasOne[..|was.hasOne|] == was.hasOne;
    ghost var middle := sink.findings.items;
    ghost var added := RelationAdded(sink.instruction, now.name, was.hasOne);
    for k := 0 to |now.hasOne|
      invariant sink.findings.items == middle + FlatMap(now.hasOne[..k], added)
    {
      FlatMapNext(now.hasOne, added, k);
      Assoc(middle, FlatMap(now.hasOne[..k], added), added(now.hasOne[k]));
      if now.hasOne[k] !in was.hasOne {
        sink.Push(Narrowed, Some(now.name), HasOneAdded, Change([], [now.hasOne[k]]));
      }
    }
    assert now.hasOne[..|now.hasOne|] == now.hasOne;
    Assoc(start, FlatMap(was.hasOne, dropped), FlatMap(now.hasOne, added));
  }

  method DiffSeeds(was: ContextAccount, now: ContextAccount, sink: Sink)
    modifies sink.findings
    ensures sink.findings.items == old(sink.findings.items) + SeedFindings(sink.instruction, was, now)
  {
    match (was.seeds == [], now.seeds == []) {
      case (false, true) => sink.Push(Widened, Some(now.name), PdaBindingRemoved, Change(was.seeds, []));
      case (true, false) => sink.Push(Narrowed, Some(now.name), PdaBindingAdded, Change([], now.seeds));
      case (true, true) =>
      case (false, false) =>
        if was.seeds != now.seeds {
          sink.Push(Review, Some(now.name), PdaSeedsChanged, Change(was.seeds, now.seeds));
        }
    }
  }

  method DiffKind(was: ContextAccount, now: ContextAccount, sink: Sink)
    modifies sink.findings
    ensures sink.findings.items == old(sink.findings.items) + KindFindings(sink.instruction, was, now)
  {
    if was.kind != now.kind {
      var detail := Change([was.kind], [now.kind]);
      if IsUncheckedKind(now.kind) && !IsUncheckedKind(was.kind) {
        sink.Push(Widened, Some(now.name), TypeCheckRemoved, detail);
      } else if IsUncheckedKind(was.kind) && !IsUncheckedKind(now.kind) {
        sink.Push(Narrowed, Some(now.name), TypeCheckAdded, detail);
      } else {
        sink.Push(Review, Some(now.name), AccountKindChanged, detail);
      }
    }
  }

  method DiffUse(was: ContextAccount, now: ContextAccount, sink: Sink)
    modifies sink.findings
    ensures sink.findings.items == old(sink.findings.items) + UseFindings(sink.instruction, was, now)
  {
    ghost var start := sink.findings.items;
    match (was.optional, now.optional) {
      case (false, true) => sink.Push(Widened, Some(now.name), BecameOptional, Plain);
      case (true, false) => sink.Push(Narrowed, Some(now.name), BecameRequired, Plain);
      case _ =>
    }
    assert sink.findings.items == start + OptionalFindings(sink.instruction, was, now);
    var before, after := was.Lifecycle(), now.Lifecycle();
    if before != after {
      var impact := if before == "existing" then Widened else if after == "existing" then Narrowed else Review;
      sink.Push(impact, Some(now.name), LifecycleChanged, Change([before], [after]));
    }
    Assoc(start, OptionalFindings(sink.instruction, was, now), LifecycleFindings(sink.instruction, was, now));
    ghost var middle := OptionalFindings(sink.instruction, was, now) + LifecycleFindings(sink.instruction, was, now);
    assert sink.findings.items == start + middle;
    if was.payer != now.payer && was.payer.Some? && now.payer.Some? {
      sink.Push(Review, Some(now.name), PayerChanged, Change([was.payer.value], [now.payer.value]));
    }
    Assoc(start, middle, PayerFindings(sink.instruction, was, now));
  }

  method DiffContextAccount(was: ContextAccount, now: ContextAccount, sink: Sink)
    modifies sink.findings
    ensures sink.findings.items == old(sink.findings.items) + ContextFindings(sink.instruction, was, now)
  {
    ghost var start, at := sink.findings.items, sink.instruction;
    DiffSeeds(was, now, sink);
    ghost var done := SeedFindings(at, was, now);
    DiffRelations(was, now, sink);
    Assoc(start, done, RelationFindings(at, was, now));
    done := done + RelationFindings(at, was, now);
    DiffOptionalBinding(was.expectedAddress, now.expectedAddress, AddressCodes(was, now), now.name, sink);
    Assoc(start, done, AddressFindings(at, was, now));
    done := done + AddressFindings(at, was, now);
    DiffOptionalBinding(was.expectedOwner, now.expectedOwner, OWNER_CODES, now.name, sink);
    Assoc(start, done, OwnerFindings(at, was, now));
    done := done + OwnerFindings(at, was, now);
    DiffOptionalBinding(was.policyRef, now.policyRef, POLICY_CODES, now.name, sink);
    Assoc(start, done, PolicyFindings(at, was, now));
    done := done + PolicyFindings(at, was, now);
    DiffKind(was, now, sink);
    Assoc(start, done, KindFindings(at, was, now));
    done := done + KindFindings(at, was, now);
    DiffUse(was, now, sink);
    Assoc(start, done, UseFindings(at, was, now));
  }

  // -------------------------------------------------------------------------
  // Meaning: which accounts a constraint set lets bind.
  // -------------------------------------------------------------------------

  /** What is true of the account a caller presents, and of what is done with
      it; an uncreated account does not exist before the instruction. */
  datatype Presented = Presented(
    omitted: bool,
    uncreated: bool,
    derivedFrom: seq<string>,
    relations: set<string>,
    address: string,
    owner: string,
    policy: string,
    kind: string,
    action: string,
    payer: string)

  ghost predicate Demands(wanted: Option<string>, actual: string) {
    wanted.Some? ==> wanted.value == actual
  }

  /** Kinds that bind an account without looking at an owner only a created account has. */
  predicate IsLooseKind(kind: string) {
    IsUncheckedKind(kind) || kind in {"Signer", "HopperSigner", "SystemAccount"}
  }

  /** An account is created where none exists, perhaps created, or used as it
      exists; mere use of a loose kind does not ask for existence. */
  predicate Fits(kind: string, lifecycle: string, uncreated: bool) {
    if lifecycle == "init" then uncreated
    else lifecycle == "init_if_needed" || !uncreated || (lifecycle == "existing" && IsLooseKind(kind))
  }

  /** Everything but the payer; nothing is demanded of an account left out. */
  ghost predicate AdmitsButPayer(c: ContextAccount, p: Presented) {
    if p.omitted then c.optional
    else
      && Fits(c.kind, c.Lifecycle(), p.uncreated)
      && (p.action != "existing" ==> p.action == c.Lifecycle())
      && (c.seeds != [] ==> p.derivedFrom == c.seeds)
      && (forall r :: r in c.hasOne ==> r in p.relations)
      && Demands(c.expectedAddress, p.address)
      && Demands(c.expectedOwner, p.owner)
      && Demands(c.policyRef, p.policy)
      && (!IsUncheckedKind(c.kind) ==> p.kind == c.kind)
  }

  /** The constraint set accepts what is presented. */
  ghost predicate Admits(c: ContextAccount, p: Presented) {
    AdmitsButPayer(c, p) && (!p.omitted ==> Demands(c.payer, p.payer))
  }

  /** A demand on whether the account exists is gone: creation became use, or
      what is done to an existing account became mere use of a loose kind. */
  predicate StateFreed(was: ContextAccount, now: ContextAccount) {
    && now.Lifecycle() == "existing" != was.Lifecycle()
    && (was.Lifecycle() == "init" || (was.Lifecycle() != "init_if_needed" && IsLooseKind(now.kind)))
  }

  predicate PayerDropped(was: ContextAccount, now: ContextAccount) { was.payer.Some? && now.payer.None? }

  lemma QuietParts(at: string, was: ContextAccount, now: ContextAccount)
    ensures Quiet(ContextFindings(at, was, now))
       <==> && Quiet(SeedFindings(at, was, now)) && Quiet(RelationFindings(at, was, now))
            && Quiet(AddressFindings(at, was, now)) && Quiet(OwnerFindings(at, was, now))
            && Quiet(PolicyFindings(at, was, now)) && Quiet(KindFindings(at, was, now))
            && Quiet(OptionalFindings(at, was, now)) && Quiet(LifecycleFindings(at, was, now))
            && Quiet(PayerFindings(at, was, now))
  {
    var a, b, c := SeedFindings(at, was, now), RelationFindings(at, was, now), AddressFindings(at, was, now);
    var d, e, f := OwnerFindings(at, was, now), PolicyFindings(at, was, now), KindFindings(at, was, now);
    QuietConcat(a + b + c + d + e + f, UseFindings(at, was, now));
    QuietConcat(a + b + c + d + e, f);
    QuietConcat(a + b + c + d, e);
    QuietConcat(a + b + c, d);
    QuietConcat(a + b, c);
    QuietConcat(a, b);
    QuietConcat(OptionalFindings(at, was, now) + LifecycleFindings(at, was, now), PayerFindings(at, was, now));
    QuietConcat(OptionalFindings(at, was, now), LifecycleFindings(at, was, now));
  }

  lemma QuietOne(at: string, account: string, impact: Impact, code: Code, detail: Detail)
    ensures Quiet(One(at, account, impact, code, detail)) <==> impact != Widened && impact != Review
  {
    assert One(at, account, impact, code, detail)[0] in One(at, account, impact, code, detail);
  }

  lemma QuietSeeds(at: string, was: ContextAccount, now: ContextAccount)
    ensures Quiet(SeedFindings(at, was, now)) <==> (was.seeds != [] ==> now.seeds == was.seeds)
  {
    QuietOne(at, now.name, Widened, PdaBindingRemoved, Change(was.seeds, []));
    QuietOne(at, now.name, Narrowed, PdaBindingAdded, Change([], now.seeds));
    QuietOne(at, now.name, Review, PdaSeedsChanged, Change(was.seeds, now.seeds));
  }

  lemma QuietRelations(at: string, was: ContextAccount, now: ContextAccount)
    ensures Quiet(RelationFindings(at, was, now)) <==> forall r :: r in was.hasOne ==> r in now.hasOne
  {
    var dropped, added := RelationDropped(at, now.name, now.hasOne), RelationAdded(at, now.name, was.hasOne);
    QuietConcat(FlatMap(was.hasOne, dropped), FlatMap(now.hasOne, added));
    FlatMapQuiet(was.hasOne, dropped);
    FlatMapQuiet(now.hasOne, added);
    forall r ensures Quiet(dropped(r)) <==> r in now.hasOne {
      QuietOne(at, now.name, Widened, HasOneRemoved, Change([r], []));
    }
    forall r ensures Quiet(added(r)) {
      QuietOne(at, now.name, Narrowed, HasOneAdded, Change([], [r]));
    }
  }

  lemma QuietBinding(at: string, account: string, codes: BindingCodes, was: Option<string>, now: Option<string>)
    ensures Quiet(BindingFindings(at, account, codes, was, now)) <==> (was.Some? ==> now == was)
  {
    match (was, now) {
      case (Some(a), None) => QuietOne(at, account, Widened, codes.removed, Change([a], []));
      case (Some(a), Some(b)) => QuietOne(at, account, Review, codes.changed, Change([a], [b]));
      case (None, Some(b)) => QuietOne(at, account, Narrowed, codes.added, Change([], [b]));
      case (None, None) =>
    }
  }

  lemma QuietKind(at: string, was: ContextAccount, now: ContextAccount)
    ensures Quiet(KindFindings(at, was, now))
       <==> was.kind == now.kind || (IsUncheckedKind(was.kind) && !IsUncheckedKind(now.kind))
  {
    var detail := Change([was.kind], [now.kind]);
    QuietOne(at, now.name, Widened, TypeCheckRemoved, detail);
    QuietOne(at, now.name, Narrowed, TypeCheckAdded, detail);
    QuietOne(at, now.name, Review, AccountKindChanged, detail);
  }

  lemma QuietOptional(at: string, was: ContextAccount, now: ContextAccount)
    ensures Quiet(OptionalFindings(at, was, now)) <==> (now.optional ==> was.optional)
  {
    QuietOne(at, now.name, Widened, BecameOptional, Plain);
    QuietOne(at, now.name, Narrowed, BecameRequired, Plain);
  }

  lemma QuietLifecycle(at: string, was: ContextAccount, now: ContextAccount)
    ensures Quiet(LifecycleFindings(at, was, now))
       <==> now.Lifecycle() == was.Lifecycle() || now.Lifecycle() == "existing"
  {
    var before, after := was.Lifecycle(), now.Lifecycle();
    var impact := if before == "existing" then Widened else if after == "existing" then Narrowed else Review;
    QuietOne(at, now.name, impact, LifecycleChanged, Change([before], [after]));
  }

  lemma QuietPayer(at: string, was: ContextAccount, now: ContextAccount)
    ensures Quiet(PayerFindings(at, was, now)) <==> (was.payer.Some? && now.payer.Some? ==> was.payer == now.payer)
  {
    if was.payer.Some? && now.payer.Some? {
      QuietOne(at, now.name, Review, PayerChanged, Change([was.payer.value], [now.payer.value]));
    }
  }

  /** What the findings compare, constraint by constraint. */
  predicate Keeps(was: ContextAccount, now: ContextAccount) {
    && (was.seeds != [] ==> now.seeds == was.seeds)
    && (forall r :: r in was.hasOne ==> r in now.hasOne)
    && (was.expectedAddress.Some? ==> now.expectedAddress == was.expectedAddress)
    && (was.expectedOwner.Some? ==> now.expectedOwner == was.expectedOwner)
    && (was.policyRef.Some? ==> now.policyRef == was.policyRef)
    && (!IsUncheckedKind(was.kind) ==> now.kind == was.kind)
    && (now.optional ==> was.optional)
    && (now.Lifecycle() == was.Lifecycle() || now.Lifecycle() == "existing")
  }

  lemma QuietKeeps(at: string, was: ContextAccount, now: ContextAccount)
    ensures Quiet(ContextFindings(at, was, now))
       <==> && Keeps(was, now)
            && (was.payer.Some? && now.payer.Some? ==> was.payer == now.payer)
            && (IsUncheckedKind(was.kind) && IsUncheckedKind(now.kind) ==> was.kind == now.kind)
  {
    hide Quiet, ContextFindings, SeedFindings, RelationFindings, KindFindings;
    hide OptionalFindings, LifecycleFindings, PayerFindings;
    hide BindingFindings;
    QuietParts(at, was, now);
    QuietSeeds(at, was, now);
    QuietRelations(at, was, now);
    QuietBinding(at, now.name, AddressCodes(was, now), was.expectedAddress, now.expectedAddress);
    QuietBinding(at, now.name, OWNER_CODES, was.expectedOwner, now.expectedOwner);
    QuietBinding(at, now.name, POLICY_CODES, was.policyRef, now.policyRef);
    QuietKind(at, was, now);
    QuietOptional(at, was, now);
    QuietLifecycle(at, was, now);
    QuietPayer(at, was, now);
  }

  /** A value meeting one demand and, where it is free to, missing another. */
  function Other(wanted: Option<string>, avoid: Option<string>): (s: string)
    ensures wanted.Some? ==> s == wanted.value
    ensures avoid.Some? && wanted != avoid ==> s != avoid.value
  {
    if wanted.Some? then wanted.value else if avoid.Some? then avoid.value + "!" else ""
  }

  /** An account the constraint set `now` accepts and, where it can, `was` does not. */
  ghost function Contrary(was: ContextAccount, now: ContextAccount): (p: Presented)
    ensures !p.omitted && Admits(now, p)
  {
    var uncreated := now.Lifecycle() == "init" || (StateFreed(was, now) && was.Lifecycle() != "init");
    Presented(false, uncreated, now.seeds, (set r | r in now.hasOne),
      Other(now.expectedAddress, was.expectedAddress),
      Other(now.expectedOwner, was.expectedOwner),
      Other(now.policyRef, was.policyRef),
      now.kind, now.Lifecycle(),
      Other(now.payer, was.payer))
  }

  lemma KeepsNarrows(was: ContextAccount, now: ContextAccount)
    ensures Keeps(was, now) && !StateFreed(was, now)
       <==> forall p :: AdmitsButPayer(now, p) ==> AdmitsButPayer(was, p)
  {
    var p := Contrary(was, now);
    if now.optional && !was.optional {
      assert AdmitsButPayer(now, p.(omitted := true)) && !AdmitsButPayer(was, p.(omitted := true));
    } else if !Keeps(was, now) || StateFreed(was, now) {
      assert !AdmitsButPayer(was, p);
    }
  }

  /** The findings do not block, and no demand on existence is gone, exactly when
      the new set accepts nothing the old one refused (the payer apart), an
      unchecked kind was not renamed, and no payer was replaced. */
  lemma ContextExact(at: string, was: ContextAccount, now: ContextAccount)
    ensures Quiet(ContextFindings(at, was, now)) && !StateFreed(was, now)
       <==> && (forall p :: AdmitsButPayer(now, p) ==> AdmitsButPayer(was, p))
            && (was.payer.Some? && now.payer.Some? ==> was.payer == now.payer)
            && (IsUncheckedKind(was.kind) && IsUncheckedKind(now.kind) ==> was.kind == now.kind)
  {
    QuietKeeps(at, was, now);
    KeepsNarrows(was, now);
  }

  /** Without a blocking finding the whole constraint set, payer included, shrinks
      exactly when the payer was not dropped and no demand on existence is gone:
      neither draws a blocking finding. */
  lemma QuietContextSound(at: string, was: ContextAccount, now: ContextAccount)
    requires Quiet(ContextFindings(at, was, now))
    ensures (forall p :: Admits(now, p) ==> Admits(was, p)) <==> !PayerDropped(was, now) && !StateFreed(was, now)
  {
    var p := Contrary(was, now);
    QuietKeeps(at, was, now);
    KeepsNarrows(was, now);
    if PayerDropped(was, now) || StateFreed(was, now) { assert !Admits(was, p); }
  }

  /** Any account that was to be created and is now used as it exists: one
      narrowing finding, and an existing account, refused before, is accepted. */
  lemma InitDroppedIsSilent(at: string, c: ContextAccount) returns (p: Presented)
    requires c.Lifecycle() == "init"
    ensures var d := c.(lifecycle := Some("existing"));
      && StateFreed(c, d) && Quiet(ContextFindings(at, c, d))
      && !p.omitted && !p.uncreated && Admits(d, p) && !Admits(c, p)
  {
    var d := c.(lifecycle := Some("existing"));
    QuietKeeps(at, c, d);
    p := Contrary(c, d);
  }

  /** Any account of a loose kind that was to be resized or closed and is now
      merely used: silent, and an account that does not exist is accepted. */
  lemma ActionDroppedIsSilent(at: string, c: ContextAccount) returns (p: Presented)
    requires c.Lifecycle() !in {"init", "init_if_needed", "existing"} && IsLooseKind(c.kind)
    ensures var d := c.(lifecycle := Some("existing"));
      && StateFreed(c, d) && Quiet(ContextFindings(at, c, d))
      && !p.omitted && p.uncreated && Admits(d, p) && !Admits(c, p)
  {
    hide IsUncheckedKind;
    var d := c.(lifecycle := Some("existing"));
    QuietKeeps(at, c, d);
    p := Contrary(c, d);
  }

  /** Any payer that disappears: silent, and any other payer is accepted. */
  lemma PayerDroppedIsSilent(at: string, c: ContextAccount) returns (p: Presented)
    requires c.payer.Some?
    ensures var d := c.(payer := None);
      && PayerDropped(c, d) && Quiet(ContextFindings(at, c, d))
      && !p.omitted && Admits(d, p) && !Admits(c, p)
  {
    hide IsUncheckedKind;
    var d := c.(payer := None);
    QuietKeeps(at, c, d);
    p := Contrary(c, d);
  }

  /** What a constraint set is written for: an account meeting every demand. */
  ghost function Typical(c: ContextAccount): (p: Presented)
    ensures !p.omitted && Admits(c, p)
  {
    Contrary(c, c)
  }
}
